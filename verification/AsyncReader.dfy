/** The sequential reader of large files: several reads in flight complete in any order, are handed
    to the consumer in file order, and a failed attempt is reopened where consumption stopped.
    The file's content does not change during a run. */
module AsyncReader {
  import opened Common
  import opened Alignment

  type Byte = bv8

  datatype RequestState = Idle | InFlight | Completed(result: Result<nat, nat>)

  datatype Request = Request(buffer: seq<Byte>, offset: nat, requested: nat, logical: nat, state: RequestState)

  /** A piece handed to the consumer. */
  datatype Chunk = Chunk(offset: nat, data: seq<Byte>)

  datatype Completion = Completion(index: nat, result: Result<nat, nat>)

  /** What one wait on the port brings.  `Arrivals` is the port at its best: of the reads in flight those
      named came back in full, or all of them if it names none. */
  datatype Event =
    | Timeout(stalled: bool) | PortError(code: nat) | Completions(batch: seq<Completion>) | Arrivals(which: set<nat>)

  /** What the operating system, the user and the consumer answer at one point of the run. */
  datatype Answer = Answer(cancelled: bool, openError: Option<nat>, fileLength: nat, submitError: Option<nat>,
                           event: Event, consumerOk: bool)

  /** Why a read failed. */
  datatype Failure = Cancelled | Code(code: nat) | Stalled | WrongLength | UnknownCompletion | Refused

  datatype Outcome = Finished | IoError(failure: Failure) | ConsumerError

  /** A failed read is worth another attempt. */
  predicate Retryable(f: Failure, fatalCodes: set<nat>) {
    match f
    case Code(code) => code !in fatalCodes
    case Stalled => true
    case WrongLength => true
    case _ => false
  }

  // ----- what should be read

  /** A file cut into pieces of `size` bytes from an offset on. */
  function Cut(file: seq<Byte>, from: nat, size: nat): (cs: seq<Chunk>)
    requires size > 0
    decreases |file| - from
  {
    if from >= |file| then [] else [Chunk(from, file[from..Min(from + size, |file|)])] + Cut(file, from + size, size)
  }

  function Joined(cs: seq<Chunk>): seq<Byte> { if cs == [] then [] else cs[0].data + Joined(cs[1..]) }

  /** The pieces put together are the file, each byte once. */
  lemma {:induction false} CutJoins(file: seq<Byte>, from: nat, size: nat)
    requires size > 0 && from <= |file|
    ensures Joined(Cut(file, from, size)) == file[from..]
    decreases |file| - from
  {
    if from < |file| {
      var cs := Cut(file, from, size);
      assert cs[1..] == Cut(file, from + size, size);
      if from + size <= |file| {
        CutJoins(file, from + size, size);
        assert file[from..] == file[from..from + size] + file[from + size..];
      } else {
        assert Cut(file, from + size, size) == [];
        assert file[from..] == file[from..|file|];
      }
    }
  }

  /** `cs` is a run of consecutive pieces from `from` up to `to`. */
  ghost predicate Consecutive(file: seq<Byte>, cs: seq<Chunk>, from: nat, to: nat, size: nat)
    requires size > 0
  {
    from <= to <= |file| && Cut(file, from, size) == cs + Cut(file, to, size)
  }

  lemma ConsecutiveStep(file: seq<Byte>, cs: seq<Chunk>, from: nat, to: nat, size: nat)
    requires size > 0 && Consecutive(file, cs, from, to, size) && to < |file|
    ensures var next := Min(to + size, |file|);
            Consecutive(file, cs + [Chunk(to, file[to..next])], from, next, size)
  {
    var next := Min(to + size, |file|);
    var c := Chunk(to, file[to..next]);
    assert Cut(file, to + size, size) == Cut(file, next, size);
    assert cs + ([c] + Cut(file, next, size)) == (cs + [c]) + Cut(file, next, size);
  }

  lemma ConsecutiveJoin(file: seq<Byte>, a: seq<Chunk>, b: seq<Chunk>, from: nat, mid: nat, to: nat, size: nat)
    requires size > 0 && Consecutive(file, a, from, mid, size) && Consecutive(file, b, mid, to, size)
    ensures Consecutive(file, a + b, from, to, size)
  {
    assert a + (b + Cut(file, to, size)) == (a + b) + Cut(file, to, size);
  }

  // ----- chunk boundaries

  predicate OnChunk(offset: nat, chunk: nat)
    requires chunk > 0
  {
    offset % chunk == 0
  }

  lemma OnChunkNext(offset: nat, chunk: nat)
    requires chunk > 0 && OnChunk(offset, chunk)
    ensures OnChunk(offset + chunk, chunk)
  {
    AddWhole(offset, chunk);
  }

  lemma OnChunkApart(a: nat, b: nat, chunk: nat)
    requires chunk > 0 && OnChunk(a, chunk) && OnChunk(b, chunk) && a < b
    ensures a + chunk <= b
  {
    MultiplesApart(a, b, chunk);
  }

  predicate AtBoundary(offset: nat, len: nat, chunk: nat)
    requires chunk > 0
  {
    OnChunk(offset, chunk) || offset == len
  }

  // ----- the request table

  predicate IsLive(r: Request) { !r.state.Idle? }

  ghost predicate HasLive(requests: seq<Request>, offset: nat) {
    exists i :: 0 <= i < |requests| && IsLive(requests[i]) && requests[i].offset == offset
  }

  /** The live requests are exactly one per chunk between the two cursors. */
  ghost predicate Tiles(requests: seq<Request>, lo: nat, hi: nat, chunk: nat)
    requires chunk > 0
  {
    && (forall i :: 0 <= i < |requests| && IsLive(requests[i]) ==>
       lo <= requests[i].offset < hi && OnChunk(requests[i].offset, chunk))
    && (forall i, j :: 0 <= i < j < |requests| && IsLive(requests[i]) && IsLive(requests[j]) ==>
       requests[i].offset != requests[j].offset)
    && (forall o: nat :: lo <= o < hi && OnChunk(o, chunk) ==> HasLive(requests, o))
  }

  /** A request asks for its chunk, rounded up to the alignment, and its buffer takes all of it; a
      completed read of enough bytes left the file's bytes in the buffer. */
  ghost predicate RequestOk(file: seq<Byte>, r: Request, chunk: nat, k: nat)
    requires chunk > 0
  {
    IsLive(r) ==>
      && r.offset < |file|
      && r.logical == Min(|file| - r.offset, chunk) && r.requested == AlignUp(r.logical, k)
      && r.logical <= r.requested <= |r.buffer|
      && (r.state.Completed? && r.state.result.Ok? && r.logical <= r.state.result.value ==>
            r.buffer[..r.logical] == file[r.offset..r.offset + r.logical])
  }

  function CountInFlight(requests: seq<Request>): nat {
    if requests == [] then 0
    else (if requests[0].state.InFlight? then 1 else 0) + CountInFlight(requests[1..])
  }

  lemma {:induction false} CountUpdate(requests: seq<Request>, i: nat, r: Request)
    requires i < |requests|
    ensures CountInFlight(requests[i := r]) ==
            CountInFlight(requests) - (if requests[i].state.InFlight? then 1 else 0)
              + (if r.state.InFlight? then 1 else 0)
  {
    if i == 0 {
      assert requests[0 := r][1..] == requests[1..];
    } else {
      CountUpdate(requests[1..], i - 1, r);
      assert requests[i := r][1..] == requests[1..][i - 1 := r];
    }
  }

  lemma {:induction false} CountPositive(requests: seq<Request>, i: nat)
    requires i < |requests| && requests[i].state.InFlight?
    ensures CountInFlight(requests) >= 1
  {
    if i > 0 {
      CountPositive(requests[1..], i - 1);
    }
  }

  /** Submitting the next chunk extends the tiling by it. */
  lemma TilesSubmit(requests: seq<Request>, lo: nat, hi: nat, len: nat, chunk: nat, i: nat, r: Request)
    requires chunk > 0 && Tiles(requests, lo, hi, chunk) && i < |requests| && !IsLive(requests[i])
    requires lo <= hi < len && OnChunk(hi, chunk) && IsLive(r) && r.offset == hi
    ensures Tiles(requests[i := r], lo, Min(hi + chunk, len), chunk)
    ensures AtBoundary(Min(hi + chunk, len), len, chunk)
  {
    hide OnChunk;
    var rs, top := requests[i := r], Min(hi + chunk, len);
    OnChunkNext(hi, chunk);
    forall o: nat | lo <= o < top && OnChunk(o, chunk) ensures HasLive(rs, o) {
      if o < hi {
        assert HasLive(requests, o);
        var j :| 0 <= j < |requests| && IsLive(requests[j]) && requests[j].offset == o;
        assert rs[j] == requests[j];
      } else {
        if o > hi {
          OnChunkApart(hi, o, chunk);
        }
        assert rs[i].offset == o;
      }
    }
  }

  /** Consuming the first chunk drops it from the tiling. */
  lemma TilesConsume(requests: seq<Request>, lo: nat, hi: nat, len: nat, chunk: nat, i: nat, r: Request)
    requires chunk > 0 && Tiles(requests, lo, hi, chunk) && i < |requests| && IsLive(requests[i])
             && requests[i].offset == lo
    requires lo < hi <= len && OnChunk(lo, chunk) && !IsLive(r) && AtBoundary(hi, len, chunk)
    ensures Tiles(requests[i := r], Min(lo + chunk, len), hi, chunk)
    ensures AtBoundary(Min(lo + chunk, len), len, chunk) && Min(lo + chunk, len) <= hi
  {
    hide OnChunk;
    var rs, low := requests[i := r], Min(lo + chunk, len);
    OnChunkNext(lo, chunk);
    if OnChunk(hi, chunk) {
      OnChunkApart(lo, hi, chunk);
    }
    forall j | 0 <= j < |rs| && IsLive(rs[j]) ensures low <= rs[j].offset {
      assert requests[j].offset != lo;
      OnChunkApart(lo, rs[j].offset, chunk);
    }
    forall o: nat | low <= o < hi && OnChunk(o, chunk) ensures HasLive(rs, o) {
      assert HasLive(requests, o);
      var j :| 0 <= j < |requests| && IsLive(requests[j]) && requests[j].offset == o;
      assert rs[j] == requests[j];
    }
  }

  lemma TilesSame(requests: seq<Request>, lo: nat, hi: nat, chunk: nat, i: nat, r: Request)
    requires chunk > 0 && Tiles(requests, lo, hi, chunk) && i < |requests|
    requires IsLive(requests[i]) && IsLive(r) && r.offset == requests[i].offset
    ensures Tiles(requests[i := r], lo, hi, chunk)
  {
    hide OnChunk;
    var rs := requests[i := r];
    forall o: nat | lo <= o < hi && OnChunk(o, chunk) ensures HasLive(rs, o) {
      assert HasLive(requests, o);
      var j :| 0 <= j < |requests| && IsLive(requests[j]) && requests[j].offset == o;
      assert rs[j].offset == o && IsLive(rs[j]);
    }
  }

  /** The reader never waits for nothing: if the next chunk has not completed, a read is in flight. */
  lemma WaitsForSomething(requests: seq<Request>, lo: nat, hi: nat, chunk: nat)
    requires chunk > 0 && Tiles(requests, lo, hi, chunk) && lo < hi && OnChunk(lo, chunk)
    requires forall i :: 0 <= i < |requests| && requests[i].offset == lo ==> !requests[i].state.Completed?
    ensures CountInFlight(requests) >= 1
  {
    assert HasLive(requests, lo);
    var i :| 0 <= i < |requests| && IsLive(requests[i]) && requests[i].offset == lo;
    CountPositive(requests, i);
  }

  // ----- the reader

  const GIVE_UP: Answer := Answer(true, None, 0, None, Timeout(false), true)

  /** The next answer of the environment; a script that is used up answers with a cancellation. */
  function NextAnswer(answers: seq<Answer>): Answer { if answers == [] then GIVE_UP else answers[0] }

  function LaterAnswers(answers: seq<Answer>): (rest: seq<Answer>)
    ensures |rest| <= |answers| && (answers != [] ==> |rest| < |answers|)
  {
    if answers == [] then [] else answers[1..]
  }

  ghost predicate RequestsOk(file: seq<Byte>, requests: seq<Request>, chunk: nat, k: nat)
    requires chunk > 0
  {
    forall i :: 0 <= i < |requests| ==> RequestOk(file, requests[i], chunk, k)
  }

  /** What the kernel leaves in a buffer when a read of `n` bytes from `offset` completes. */
  function Transferred(file: seq<Byte>, buffer: seq<Byte>, offset: nat, n: nat): (b: seq<Byte>)
    requires offset <= |file|
    ensures |b| == |buffer|
    ensures forall j :: 0 <= j < Min(n, Min(|file| - offset, |buffer|)) ==> b[j] == file[offset + j]
  {
    var m := Min(n, Min(|file| - offset, |buffer|));
    file[offset..offset + m] + buffer[m..]
  }

  function CompletedRequest(file: seq<Byte>, r: Request, result: Result<nat, nat>): Request
    requires r.offset <= |file|
  {
    r.(state := Completed(result),
       buffer := if result.Ok? then Transferred(file, r.buffer, r.offset, result.value) else r.buffer)
  }

  /** The operating system reported an error code, on opening, on submitting, from the port or for one read. */
  ghost predicate Reports(a: Answer, code: nat) {
    a.openError == Some(code) || a.submitError == Some(code) || a.event == PortError(code) || Says(a.event, Err(code))
  }

  /** A completion with this result came from the port. */
  ghost predicate Says(e: Event, result: Result<nat, nat>) {
    e.Completions? && exists k :: 0 <= k < |e.batch| && e.batch[k].result == result
  }

  /** A chunk's read moved less than the chunk or more than was asked for. */
  predicate OutOfRange(moved: nat, logical: nat, bits: nat) { moved < logical || moved > AlignUp(logical, bits) }

  /** This answer can make a read of `logical` bytes fail in this way. */
  ghost predicate Causes(a: Answer, f: Failure, logical: nat, bits: nat) {
    match f
    case Cancelled => a.cancelled
    case Code(code) => Reports(a, code)
    case Stalled => a.event.Timeout? && a.event.stalled
    case WrongLength => exists n: nat :: Says(a.event, Ok(n)) && OutOfRange(n, logical, bits)
    case UnknownCompletion => a.event.Completions?
    case Refused => false
  }

  /** One of the first `used` answers caused the failure. */
  ghost predicate SomeCause(answers: seq<Answer>, used: nat, f: Failure, logical: nat, bits: nat)
    requires used <= |answers|
  {
    exists i :: 0 <= i < used && Causes(answers[i], f, logical, bits)
  }

  /** Why a run failed: an answer used caused it, or the script ran out. */
  ghost predicate HasReason(answers: seq<Answer>, rest: seq<Answer>, f: Failure, logical: nat, bits: nat) {
    |rest| <= |answers| && ((f.Cancelled? && rest == []) || SomeCause(answers, |answers| - |rest|, f, logical, bits))
  }

  /** A result that makes the head's read fail in this way. */
  predicate FailsWith(result: Result<nat, nat>, f: Failure, logical: nat, bits: nat) {
    match result
    case Err(code) => f == Code(code)
    case Ok(n) => f == WrongLength && OutOfRange(n, logical, bits)
  }

  /** A read that had already failed in this way. */
  ghost predicate FailedBefore(requests: seq<Request>, f: Failure, logical: nat, bits: nat) {
    exists i :: 0 <= i < |requests| && requests[i].state.Completed?
                && FailsWith(requests[i].state.result, f, logical, bits)
  }

  /** Requests only became idle or were submitted. */
  ghost predicate NothingNew(before: seq<Request>, now: seq<Request>) {
    && |now| == |before|
    && (forall i :: 0 <= i < |now| && now[i].state.Completed? ==> now[i] == before[i])
    && (forall i :: 0 <= i < |now| && before[i].state.InFlight? ==> now[i] == before[i])
  }

  lemma NothingNewAgain(a: seq<Request>, b: seq<Request>, c: seq<Request>)
    requires NothingNew(a, b) && NothingNew(b, c)
    ensures NothingNew(a, c)
  {
  }

  lemma NothingNewRight(before: seq<Request>, now: seq<Request>)
    requires NothingNew(before, now)
    ensures AllRight(before) ==> AllRight(now)
  {
  }

  /** Whatever completed did so before, was reported by one of the first `used` answers, or came back in full. */
  ghost predicate Traced(before: seq<Request>, now: seq<Request>, answers: seq<Answer>, used: nat)
    requires used <= |answers|
  {
    forall i :: 0 <= i < |now| && now[i].state.Completed? ==>
      now[i].state.result == Ok(now[i].logical) || CompletedBefore(before, now[i].state.result)
      || ReportedBy(answers, used, now[i].state.result)
  }

  ghost predicate CompletedBefore(before: seq<Request>, result: Result<nat, nat>) {
    exists j :: 0 <= j < |before| && before[j].state == Completed(result)
  }

  ghost predicate ReportedBy(answers: seq<Answer>, used: nat, result: Result<nat, nat>)
    requires used <= |answers|
  {
    exists j :: 0 <= j < used && Says(answers[j].event, result)
  }

  lemma TracedStart(before: seq<Request>, answers: seq<Answer>)
    ensures Traced(before, before, answers, 0)
  {
    forall i | 0 <= i < |before| && before[i].state.Completed? ensures CompletedBefore(before, before[i].state.result) {
      assert before[i].state == Completed(before[i].state.result);
    }
  }

  lemma TracedOn(before: seq<Request>, now: seq<Request>, later: seq<Request>, answers: seq<Answer>, used: nat,
                 more: nat)
    requires used <= more <= |answers| && Traced(before, now, answers, used) && NothingNew(now, later)
    ensures Traced(before, later, answers, more)
  {
    forall i | 0 <= i < |later| && later[i].state.Completed? && ReportedBy(answers, used, later[i].state.result)
      ensures ReportedBy(answers, more, later[i].state.result)
    {
      var j :| 0 <= j < used && Says(answers[j].event, later[i].state.result);
      assert 0 <= j < more;
    }
  }

  /** What a batch brought: nothing new, or a result of the batch. */
  ghost predicate FromBatch(before: seq<Request>, now: seq<Request>, batch: seq<Completion>) {
    && |now| == |before|
    && (forall i :: 0 <= i < |now| ==> now[i].logical == before[i].logical)
    && (forall i :: 0 <= i < |now| && now[i].state.Completed? ==>
       now[i].state == before[i].state
       || exists k :: 0 <= k < |batch| && batch[k] == Completion(i, now[i].state.result))
  }

  lemma TracedBatch(before: seq<Request>, now: seq<Request>, later: seq<Request>, e: Event, answers: seq<Answer>,
                    used: nat)
    requires used < |answers| && Traced(before, now, answers, used) && answers[used].event == e
    requires FromBatch(now, later, Batch(now, e))
    ensures Traced(before, later, answers, used + 1)
  {
    var batch := Batch(now, e);
    if e.Arrivals? { ArrivalsWell(now, e.which); }
    hide Batch, Says;
    forall i | 0 <= i < |later| && later[i].state.Completed?
      ensures later[i].state.result == Ok(later[i].logical) || CompletedBefore(before, later[i].state.result)
              || ReportedBy(answers, used + 1, later[i].state.result)
    {
      var result := later[i].state.result;
      if later[i].state == now[i].state {
        if ReportedBy(answers, used, result) {
          var j :| 0 <= j < used && Says(answers[j].event, result);
          assert 0 <= j < used + 1;
        }
      } else {
        var k :| 0 <= k < |batch| && batch[k] == Completion(i, result);
        SaidInBatch(now, e, batch, k);
        assert e.Completions? ==> Says(answers[used].event, result);
      }
    }
  }

  lemma SaidInBatch(now: seq<Request>, e: Event, batch: seq<Completion>, k: nat)
    requires batch == Batch(now, e) && k < |batch|
    ensures e.Arrivals? || (e.Completions? && Says(e, batch[k].result))
  {
  }

  /** The failed read at the head was reported by an answer, or had failed before. */
  lemma HeadReason(before: seq<Request>, now: seq<Request>, answers: seq<Answer>, rest: seq<Answer>, i: nat, f: Failure,
                   bits: nat)
    requires |rest| <= |answers| && Traced(before, now, answers, |answers| - |rest|)
    requires HeadIs(now, i, f, bits)
    ensures HasReason(answers, rest, f, now[i].logical, bits) || FailedBefore(before, f, now[i].logical, bits)
  {
    var used, result, logical := |answers| - |rest|, now[i].state.result, now[i].logical;
    AlignUpLeast(logical, bits);
    if CompletedBefore(before, result) {
      var j :| 0 <= j < |before| && before[j].state == Completed(result);
      assert FailedBefore(before, f, logical, bits);
    } else {
      hide AlignUp, Says;
      assert ReportedBy(answers, used, result);
      var j :| 0 <= j < used && Says(answers[j].event, result);
      assert Causes(answers[j], f, logical, bits);
    }
  }

  ghost predicate SomeRefusal(answers: seq<Answer>, used: nat)
    requires used <= |answers|
  {
    exists i :: 0 <= i < used && !answers[i].consumerOk
  }

  /** The port reported a completion that no read in flight was waiting for. */
  ghost predicate Malformed(requests: seq<Request>, batch: seq<Completion>) {
    exists k :: 0 <= k < |batch| &&
      (batch[k].index >= |requests| || !requests[batch[k].index].state.InFlight?
       || exists j :: 0 <= j < k && batch[j].index == batch[k].index)
  }

  /** The first `next` completions of a batch were taken in, all of them well formed. */
  ghost predicate TakenIn(before: seq<Request>, now: seq<Request>, batch: seq<Completion>, next: nat) {
    && |now| == |before| && next <= |batch| && !Malformed(before, batch[..next])
    && (forall i :: 0 <= i < |now| ==> IsLive(now[i]) == IsLive(before[i]) && now[i].offset == before[i].offset)
    && (forall i :: 0 <= i < |now| && now[i].state.InFlight? ==>
       before[i].state.InFlight? && forall k :: 0 <= k < next ==> batch[k].index != i)
    && (forall i :: 0 <= i < |now| && before[i].state.InFlight? && !now[i].state.InFlight? ==>
       exists k :: 0 <= k < next && batch[k].index == i)
  }

  /** The reads in flight among the first `n` requests, all or those that `which` names, each in full. */
  function Arrived(requests: seq<Request>, all: bool, which: set<nat>, n: nat): seq<Completion>
    requires n <= |requests|
  {
    if n == 0 then []
    else Arrived(requests, all, which, n - 1) +
         (if requests[n - 1].state.InFlight?
           && (all || n - 1 in which) then [Completion(n - 1, Ok(requests[n - 1].logical))] else [])
  }

  /** The completions an event reports. */
  function Batch(requests: seq<Request>, e: Event): seq<Completion> {
    match e
    case Completions(batch) => batch
    case Arrivals(which) =>
      var named := Arrived(requests, false, which, |requests|);
      if named == [] then Arrived(requests, true, which, |requests|) else named
    case _ => []
  }

  /** Reads in flight among the first `n` requests, each at most once and in full. */
  ghost predicate WellReported(requests: seq<Request>, b: seq<Completion>, n: nat)
    requires n <= |requests|
  {
    && (forall k :: 0 <= k < |b| ==> b[k].index < n && requests[b[k].index].state.InFlight?)
    && (forall j, k :: 0 <= j < k < |b| ==> b[j].index < b[k].index)
    && InFull(requests, b)
  }

  lemma OneMoreReported(requests: seq<Request>, b: seq<Completion>, n: nat)
    requires n < |requests| && WellReported(requests, b, n)
    ensures WellReported(requests, b, n + 1)
    ensures requests[n].state.InFlight? ==> WellReported(requests, b + [Completion(n, Ok(requests[n].logical))], n + 1)
  {
  }

  lemma {:induction false} ArrivedInOrder(requests: seq<Request>, all: bool, which: set<nat>, n: nat)
    requires n <= |requests|
    ensures WellReported(requests, Arrived(requests, all, which, n), n)
  {
    if n > 0 {
      ArrivedInOrder(requests, all, which, n - 1);
      OneMoreReported(requests, Arrived(requests, all, which, n - 1), n - 1);
    }
    hide WellReported;
    NothingArrived(requests);
  }

  lemma NothingArrived(requests: seq<Request>)
    ensures WellReported(requests, [], 0)
  {
  }

  lemma {:induction false} SomethingArrives(requests: seq<Request>, which: set<nat>, n: nat, i: nat)
    requires i < n <= |requests| && requests[i].state.InFlight?
    ensures Arrived(requests, true, which, n) != []
  {
    if i < n - 1 {
      SomethingArrives(requests, which, n - 1, i);
    }
  }

  lemma WellFormed(requests: seq<Request>, b: seq<Completion>)
    requires WellReported(requests, b, |requests|)
    ensures !Malformed(requests, b) && InFull(requests, b)
  {
  }

  lemma {:induction false} SomethingInFlight(requests: seq<Request>)
    requires CountInFlight(requests) > 0
    ensures exists i :: 0 <= i < |requests| && requests[i].state.InFlight?
  {
    if !requests[0].state.InFlight? {
      SomethingInFlight(requests[1..]);
      var i :| 0 <= i < |requests[1..]| && requests[1..][i].state.InFlight?;
      assert requests[i + 1].state.InFlight?;
    }
  }

  /** What arrives is well formed and in full, and something does if anything is in flight. */
  lemma ArrivalsWell(requests: seq<Request>, which: set<nat>)
    ensures var b := Batch(requests, Arrivals(which));
      && !Malformed(requests, b) && InFull(requests, b) && (CountInFlight(requests) > 0 ==> b != [])
  {
    hide WellReported, Malformed, Arrived, InFull;
    ArrivedInOrder(requests, false, which, |requests|);
    ArrivedInOrder(requests, true, which, |requests|);
    if CountInFlight(requests) > 0 {
      SomethingInFlight(requests);
      var i :| 0 <= i < |requests| && requests[i].state.InFlight?;
      SomethingArrives(requests, which, |requests|, i);
    }
    WellFormed(requests, Batch(requests, Arrivals(which)));
  }

  /** Every completed read moved at least its chunk and no more than it asked for. */
  ghost predicate AllRight(requests: seq<Request>) {
    forall i :: 0 <= i < |requests| && requests[i].state.Completed? ==>
      requests[i].state.result.Ok? && requests[i].logical <= requests[i].state.result.value <= requests[i].requested
  }

  ghost predicate InFull(requests: seq<Request>, batch: seq<Completion>) {
    forall k :: 0 <= k < |batch| && batch[k].index < |requests| ==>
      batch[k].result == Ok(requests[batch[k].index].logical)
  }

  lemma NothingReported(requests: seq<Request>, e: Event)
    requires e.Timeout? || e.PortError?
    ensures !Malformed(requests, Batch(requests, e))
  {
  }

  lemma TakenInAll(before: seq<Request>, now: seq<Request>, batch: seq<Completion>, next: nat)
    ensures TakenIn(before, before, batch, 0)
    ensures TakenIn(before, now, batch, next) ==>
      |now| == |before| && forall i :: 0 <= i < |now| ==>
        IsLive(now[i]) == IsLive(before[i]) && now[i].offset == before[i].offset
    ensures TakenIn(before, now, batch, next) && next == |batch| ==> !Malformed(before, batch)
  {
    if next == |batch| {
      assert batch[..next] == batch;
    }
  }

  lemma TakenInNext(before: seq<Request>, now: seq<Request>, batch: seq<Completion>, next: nat)
    requires TakenIn(before, now, batch, next) && next < |batch|
    ensures |now| == |before|
    ensures forall j :: 0 <= j < |now| ==> IsLive(now[j]) == IsLive(before[j]) && now[j].offset == before[j].offset
    ensures var i := batch[next].index;
            if i < |now| && now[i].state.InFlight? then
              forall r: Request :: r.state.Completed? && r.offset == now[i].offset ==>
                TakenIn(before, now[i := r], batch, next + 1)
            else Malformed(before, batch)
  {
    var i := batch[next].index;
    if i < |now| && now[i].state.InFlight? {
      forall r: Request | r.state.Completed? && r.offset == now[i].offset
        ensures TakenIn(before, now[i := r], batch, next + 1)
      {
        TakenInStep(before, now, batch, next, r);
      }
    }
  }

  lemma TakenInStep(before: seq<Request>, now: seq<Request>, batch: seq<Completion>, next: nat, r: Request)
    requires TakenIn(before, now, batch, next) && next < |batch| && batch[next].index < |now|
    requires var i := batch[next].index; now[i].state.InFlight? && r.state.Completed? && r.offset == now[i].offset
    ensures TakenIn(before, now[batch[next].index := r], batch, next + 1)
  {
    var i := batch[next].index;
    var upto := batch[..next + 1];
    assert forall k :: 0 <= k < next ==> upto[k] == batch[..next][k];
    var after := now[i := r];
    forall j | 0 <= j < |after| && before[j].state.InFlight? && !after[j].state.InFlight?
      ensures exists k :: 0 <= k < next + 1 && batch[k].index == j
    {
      if j == i {
        assert batch[next].index == i;
      } else {
        var k :| 0 <= k < next && batch[k].index == j;
      }
    }
  }

  /** Answers in which nothing goes wrong. */
  predicate Smooth(a: Answer, len: nat) {
    && !a.cancelled && a.openError.None? && a.fileLength == len && a.submitError.None?
    && a.event.Arrivals? && a.consumerOk
  }

  ghost predicate SmoothScript(answers: seq<Answer>, len: nat) {
    forall i :: 0 <= i < |answers| ==> Smooth(answers[i], len)
  }

  /** What is left of a script from some point on. */
  predicate LeftOf(answers: seq<Answer>, rest: seq<Answer>) {
    |rest| <= |answers| && rest == answers[|answers| - |rest|..]
  }

  /** No answer used so far was a cancellation. */
  ghost predicate Uncancelled(answers: seq<Answer>, rest: seq<Answer>) {
    |rest| <= |answers| && forall i :: 0 <= i < |answers| - |rest| ==> !answers[i].cancelled
  }

  lemma UncancelledNext(answers: seq<Answer>, rest: seq<Answer>)
    requires LeftOf(answers, rest)
    ensures Uncancelled(answers, rest) && !NextAnswer(rest).cancelled ==> Uncancelled(answers, LaterAnswers(rest))
  {
    if rest != [] {
      assert answers[|answers| - |rest|] == NextAnswer(rest);
    }
  }

  lemma UncancelledInside(answers: seq<Answer>, inner: seq<Answer>, rest: seq<Answer>)
    requires LeftOf(answers, inner) && LeftOf(inner, rest)
    ensures Uncancelled(answers, inner) && Uncancelled(inner, rest) ==> Uncancelled(answers, rest)
  {
    var d := |answers| - |inner|;
    assert forall i :: 0 <= i < |inner| ==> inner[i] == answers[d + i];
    if Uncancelled(answers, inner) && Uncancelled(inner, rest) {
      forall i | 0 <= i < |answers| - |rest| ensures !answers[i].cancelled {
        if i >= d { assert inner[i - d] == answers[i]; }
      }
    }
  }

  lemma AllAnswersLeft(answers: seq<Answer>)
    ensures LeftOf(answers, answers) && Uncancelled(answers, answers)
  {
  }

  lemma SmoothRest(answers: seq<Answer>, rest: seq<Answer>, len: nat)
    requires SmoothScript(answers, len) && |rest| <= |answers| && rest == answers[|answers| - |rest|..]
    ensures SmoothScript(rest, len) && (rest != [] ==> Smooth(NextAnswer(rest), len))
  {
    forall i | 0 <= i < |rest| ensures Smooth(rest[i], len) {
      assert rest[i] == answers[|answers| - |rest| + i];
    }
  }

  /** Chunks from an offset on. */
  function ChunksLeft(file: seq<Byte>, from: nat, chunk: nat): nat
    requires chunk > 0
  {
    |Cut(file, from, chunk)|
  }

  lemma OneChunkLess(file: seq<Byte>, from: nat, chunk: nat)
    requires chunk > 0 && from < |file|
    ensures ChunksLeft(file, from, chunk) == 1 + ChunksLeft(file, Min(from + chunk, |file|), chunk)
  {
    assert Cut(file, from, chunk) == [Chunk(from, file[from..Min(from + chunk, |file|)])]
           + Cut(file, from + chunk, chunk);
    assert Cut(file, from + chunk, chunk) == Cut(file, Min(from + chunk, |file|), chunk);
  }

  class AsyncSequentialReader {
    const file: seq<Byte>
    const start: nat
    const chunkSize: nat
    const alignment: nat
    var requests: seq<Request>
    var nextSubmit: nat
    var nextConsume: nat
    var outstanding: nat
    ghost var malformed: bool

    ghost predicate Valid()
      reads this`requests, this`nextSubmit, this`nextConsume, this`outstanding
      ensures Valid() ==> chunkSize > 0
    {
      && chunkSize > 0
      && start <= nextConsume <= nextSubmit <= |file|
      && AtBoundary(nextConsume, |file|, chunkSize) && AtBoundary(nextSubmit, |file|, chunkSize)
      && Tiles(requests, nextConsume, nextSubmit, chunkSize)
      && RequestsOk(file, requests, chunkSize, alignment)
      && outstanding == CountInFlight(requests)
      && (start < |file| ==> |requests| > 0)
      && (forall i :: 0 <= i < |requests| ==>
         |requests[i].buffer| >= AlignUp(Min(|file| - start, chunkSize), alignment))
    }

    /** Reads still to be waited for, submitted or not. */
    ghost function Awaited(): nat
      requires chunkSize > 0
      reads this`nextSubmit, this`outstanding
    {
      ChunksLeft(file, nextSubmit, chunkSize) + outstanding
    }

    /** The answers a smooth run takes from here: two for every chunk, one for every wait. */
    ghost function AnswersNeeded(): nat
      requires chunkSize > 0
      reads this`nextSubmit, this`nextConsume, this`outstanding
    {
      2 * ChunksLeft(file, nextConsume, chunkSize) + Awaited()
    }

    /** Nothing went wrong so far, nothing will, and the script is long enough. */
    ghost predicate SmoothRun(answers: seq<Answer>)
      requires chunkSize > 0
      reads this`requests, this`malformed, this`nextSubmit, this`nextConsume, this`outstanding
    {
      && !malformed && AllRight(requests) && SmoothScript(answers, |file|)
      && |answers| >= |requests| + AnswersNeeded()
    }

    /** Nothing went wrong so far; with at most `depth` requests. */
    ghost predicate Untroubled(depth: nat)
      requires chunkSize > 0
      reads this`requests, this`malformed, this`nextSubmit, this`nextConsume, this`outstanding
    {
      && !malformed && AllRight(requests) && |requests| <= depth
      && Awaited() <= ChunksLeft(file, nextConsume, chunkSize)
    }

    /** Opens the file at an offset; the error says whether another attempt may succeed. */
    static method Open(file: seq<Byte>, expectedLen: nat, startOffset: nat, chunk: nat, alignmentBits: nat,
                       queueDepth: nat, a: Answer)
      returns (r: Result<AsyncSequentialReader, Failure>)
      requires expectedLen == |file| && (chunk > 0 ==> AtBoundary(startOffset, |file|, chunk))
      ensures r.Err? <==>
        chunk == 0 || startOffset > expectedLen || OpenRefused(a, |file|, chunk, alignmentBits, queueDepth)
      // the first of the checks that fails is the one reported
      ensures r == Err(Cancelled) <==> a.cancelled
      ensures r.Err? && r.error.Code? <==>
        !a.cancelled && 0 < chunk <= 0xFFFF_FFFF && 1 <= queueDepth <= 128 && startOffset <= expectedLen
        && a.openError.Some?
      ensures r.Err? && chunk > 0 && startOffset <= expectedLen ==>
        StopsAtOnce(a, r.error, |file|, chunk, alignmentBits, queueDepth)
      ensures r.Ok? ==> fresh(r.value) && r.value.Valid() && r.value.file == file && r.value.chunkSize == chunk
                        && r.value.nextConsume == r.value.nextSubmit == startOffset && chunk % Pow2(alignmentBits) == 0
                        && r.value.alignment == alignmentBits && r.value.Untroubled(queueDepth)
                        && forall i :: 0 <= i < |r.value.requests| ==> r.value.requests[i].state.Idle?
    {
      if a.cancelled {
        return Err(Cancelled);
      }
      if chunk == 0 || chunk > 0xFFFF_FFFF || !(1 <= queueDepth <= 128) || startOffset > expectedLen {
        return Err(Refused);
      }
      if a.openError.Some? {
        return Err(Code(a.openError.value));
      }
      if chunk % Pow2(alignmentBits) != 0 || a.fileLength != expectedLen {
        return Err(Refused);
      }
      var remaining := expectedLen - startOffset;
      var count := if remaining == 0 then 0 else Min((remaining + chunk - 1) / chunk, queueDepth);
      var size := AlignUp(Min(remaining, chunk), alignmentBits);
      var reader := new AsyncSequentialReader(file, startOffset, chunk, alignmentBits, count, size);
      r := Ok(reader);
    }

    constructor (file: seq<Byte>, startOffset: nat, chunk: nat, alignmentBits: nat, count: nat, size: nat)
      requires chunk > 0 && startOffset <= |file| && AtBoundary(startOffset, |file|, chunk)
      requires startOffset < |file| ==> count > 0
      requires size >= AlignUp(Min(|file| - startOffset, chunk), alignmentBits)
      ensures Valid() && this.file == file && chunkSize == chunk && nextConsume == nextSubmit == startOffset
      ensures alignment == alignmentBits && Untroubled(count)
      ensures forall i :: 0 <= i < |requests| ==> requests[i].state.Idle?
    {
      this.file := file;
      start := startOffset;
      chunkSize := chunk;
      alignment := alignmentBits;
      requests := seq(count, _ => Request(seq(size, _ => 0), 0, 0, 0, Idle));
      nextSubmit := startOffset;
      nextConsume := startOffset;
      outstanding := 0;
      malformed := false;
      new;
      NoneInFlight(requests);
    }

    /** Starts the next chunk's read in an idle request. */
    method Submit(index: nat, a: Answer) returns (error: Option<Failure>)
      requires Valid() && index < |requests| && requests[index].state.Idle?
      modifies this`requests, this`nextSubmit, this`outstanding
      ensures Valid() && |requests| == |old(requests)|
      ensures forall i :: 0 <= i < |requests| && i != index ==> requests[i] == old(requests)[i]
      ensures error == Some(Cancelled) <==> a.cancelled
      ensures error.Some? && error.value.Code? <==> !a.cancelled && old(nextSubmit) < |file| && a.submitError.Some?
      ensures error.Some? ==> error.value.Cancelled? || (error.value.Code? && a.submitError == Some(error.value.code))
      ensures NothingNew(old(requests), requests)
      ensures error.None? && old(nextSubmit) < |file| ==>
        nextSubmit == Min(old(nextSubmit) + chunkSize, |file|) && requests[index].state.InFlight?
        && requests[index].offset == old(nextSubmit)
        && OnChunk(old(nextSubmit), chunkSize) && outstanding == old(outstanding) + 1
      ensures error.Some? || old(nextSubmit) == |file| ==>
        nextSubmit == old(nextSubmit) && outstanding == old(outstanding) && requests[index].state.Idle?
      ensures Awaited() == old(Awaited())
    {
      hide Tiles, AlignUp, OnChunk, CountInFlight, ChunksLeft;
      if a.cancelled {
        return Some(Cancelled);
      }
      if nextSubmit >= |file| {
        return None;
      }
      var offset := nextSubmit;
      var logical := Min(|file| - offset, chunkSize);
      var requested := AlignUp(logical, alignment);
      AlignUpMonotone(logical, Min(|file| - start, chunkSize), alignment);
      AlignUpLeast(logical, alignment);
      var request := requests[index].(offset := offset, requested := requested, logical := logical);
      if a.submitError.Some? {
        IdleUpdate(requests, nextConsume, nextSubmit, chunkSize, index, request.(state := Idle));
        requests := requests[index := request.(state := Idle)];
        return Some(Code(a.submitError.value));
      }
      OneChunkLess(file, nextSubmit, chunkSize);
      TilesSubmit(requests, nextConsume, nextSubmit, |file|, chunkSize, index, request.(state := InFlight));
      CountUpdate(requests, index, request.(state := InFlight));
      requests := requests[index := request.(state := InFlight)];
      nextSubmit := nextSubmit + logical;
      outstanding := outstanding + 1;
      error := None;
    }
  
    /** Starts the next chunk's read, going by the next answer of the script. */
    method SubmitNext(index: nat, answers: seq<Answer>, left: seq<Answer>)
      returns (error: Option<Failure>, rest: seq<Answer>)
      requires Valid() && index < |requests| && requests[index].state.Idle?
      requires LeftOf(answers, left)
      modifies this`requests, this`nextSubmit, this`outstanding
      ensures Valid() && |requests| == |old(requests)| && Awaited() == old(Awaited())
      ensures |left| - 1 <= |rest| <= |left| && LeftOf(answers, rest)
      ensures error.Some? ==> forall logical :: HasReason(answers, rest, error.value, logical, alignment)
      ensures error.Some? ==> error.value.Cancelled? || error.value.Code?
      ensures error.None? ==>
        old(nextSubmit) == nextSubmit == |file| || (nextSubmit > old(nextSubmit) && !requests[index].state.Idle?)
      ensures NothingNew(old(requests), requests)
      ensures Uncancelled(answers, left) && error != Some(Cancelled) ==> Uncancelled(answers, rest)
      ensures SmoothScript(answers, |file|) && left != [] ==> error.None?
    {
      hide Valid, Awaited, SmoothScript, HasReason, LaterAnswers, NothingNew, Uncancelled;
      UncancelledNext(answers, left);
      Cursors();
      if SmoothScript(answers, |file|) { SmoothRest(answers, left, |file|); }
      error := Submit(index, NextAnswer(left));
      Used(answers, left);
      rest := LaterAnswers(left);
      if error.Some? {
        ReasonNow(answers, left, error.value, alignment);
      }
    }

    /** Fills idle requests, at most `limit` of them. */
    method PrimeLimit(limit: nat, answers: seq<Answer>) returns (error: Option<Failure>, rest: seq<Answer>)
      requires Valid()
      modifies this`requests, this`nextSubmit, this`outstanding
      ensures Valid() && |rest| <= |answers| && |requests| == |old(requests)|
      ensures error.None? && limit >= |requests| && nextConsume < |file| ==> nextConsume < nextSubmit
      ensures error.Some? ==> forall logical :: HasReason(answers, rest, error.value, logical, alignment)
      ensures error.Some? ==> error.value.Cancelled? || error.value.Code?
      ensures LeftOf(answers, rest) && NothingNew(old(requests), requests)
      ensures |rest| >= |answers| - |requests| && Awaited() == old(Awaited())
      ensures error != Some(Cancelled) ==> Uncancelled(answers, rest)
      ensures SmoothScript(answers, |file|) && |answers| >= |requests| ==> error.None?
    {
      hide Valid, LeftOf, Awaited, SmoothScript, HasReason, NothingNew, Uncancelled;
      Cursors();
      NothingNewYet(requests);
      rest := answers;
      AllAnswersLeft(answers);
      error := None;
      var submitted := 0;
      var index := 0;
      while index < |requests|
        invariant Valid() && |rest| <= |answers| && |requests| == |old(requests)|
        invariant LeftOf(answers, rest) && error == None && Uncancelled(answers, rest)
        invariant 0 <= index <= |requests| && submitted <= index
        invariant |rest| >= |answers| - index && Awaited() == old(Awaited())
        invariant NothingNew(old(requests), requests)
        invariant nextSubmit == |file| || nextConsume < nextSubmit || index == 0 || !requests[index - 1].state.Idle?
      {
        Cursors();
        if submitted >= limit || nextSubmit >= |file| {
          break;
        }
        if requests[index].state.Idle? {
          ghost var before := requests;
          error, rest := SubmitNext(index, answers, rest);
          NothingNewAgain(old(requests), before, requests);
          if error.Some? {
            return;
          }
          submitted := submitted + 1;
        }
        index := index + 1;
      }
      Cursors();
      if nextConsume == nextSubmit && nextConsume < |file| && index > 0 {
        LiveHere(index - 1);
      }
    }

    lemma LiveHere(index: nat)
      requires Valid() && index < |requests| && IsLive(requests[index])
      ensures nextConsume < nextSubmit
    {
      LiveBetween(requests, nextConsume, nextSubmit, chunkSize, index);
    }

    /** One read in flight ended. */
    method Complete(index: nat, result: Result<nat, nat>)
      requires Valid() && index < |requests| && requests[index].state.InFlight?
      modifies this`requests, this`outstanding
      ensures Valid() && outstanding == old(outstanding) - 1
      ensures old(requests)[index].offset <= |file|
      ensures requests == old(requests)[index := CompletedRequest(file, old(requests)[index], result)]
    {
      hide Tiles, AlignUp, OnChunk, CountInFlight;
      var request := requests[index];
      var completed := CompletedRequest(file, request, result);
      TilesSame(requests, nextConsume, nextSubmit, chunkSize, index, completed);
      CountUpdate(requests, index, completed);
      CountPositive(requests, index);
      CompletedOk(file, request, result, chunkSize, alignment);
      requests := requests[index := completed];
      outstanding := outstanding - 1;
    }

    /** Takes in one batch of completions. */
    method ReceiveCompletions(event: Event) returns (error: Option<Failure>)
      requires Valid()
      modifies this`requests, this`outstanding, this`malformed
      ensures Valid() && |requests| == |old(requests)|
      ensures malformed == (old(malformed) || Malformed(old(requests), Batch(old(requests), event)))
      ensures FromBatch(old(requests), requests, Batch(old(requests), event))
      ensures error == match event
                       case Timeout(stalled) => if stalled && old(outstanding) > 0 then Some(Stalled) else None
                       case PortError(code) => Some(Code(code))
                       case _ => if Malformed(old(requests), Batch(old(requests), event)) then Some(UnknownCompletion)
                                 else None
      ensures forall i :: 0 <= i < |requests| ==>
        IsLive(requests[i]) == IsLive(old(requests)[i]) && requests[i].offset == old(requests)[i].offset
      // a port at its best brings what was waited for
      ensures event.Arrivals? ==> error == None && malformed == old(malformed)
      ensures event.Arrivals? && old(outstanding) > 0 ==> outstanding < old(outstanding)
      ensures event.Arrivals? && AllRight(old(requests)) ==> AllRight(requests)
    {
      hide Valid, Transferred, TakenIn, Malformed, Batch;
      match event
      case Timeout(stalled) =>
        NothingReported(requests, event);
        error := if stalled && outstanding > 0 then Some(Stalled) else None;
      case PortError(code) =>
        NothingReported(requests, event);
        error := Some(Code(code));
      case Completions(_) =>
        error := TakeIn(Batch(requests, event));
      case Arrivals(which) =>
        Counting();
        ArrivalsWell(requests, which);
        error := TakeIn(Batch(requests, event));
    }

    lemma Counting()
      requires Valid()
      ensures outstanding == CountInFlight(requests)
    {
    }

    lemma InFlightAsks(index: nat)
      requires Valid() && index < |requests| && IsLive(requests[index])
      ensures requests[index].logical <= requests[index].requested
    {
    }

    /** Takes in the completions of one batch, up to the first that no read in flight was waiting for. */
    method TakeIn(batch: seq<Completion>) returns (error: Option<Failure>)
      requires Valid()
      modifies this`requests, this`outstanding, this`malformed
      ensures Valid() && |requests| == |old(requests)|
      ensures malformed == (old(malformed) || Malformed(old(requests), batch))
      ensures error == if Malformed(old(requests), batch) then Some(UnknownCompletion) else None
      ensures FromBatch(old(requests), requests, batch)
      ensures forall i :: 0 <= i < |requests| ==>
        IsLive(requests[i]) == IsLive(old(requests)[i]) && requests[i].offset == old(requests)[i].offset
      ensures error == None ==> outstanding == old(outstanding) - |batch|
      ensures AllRight(old(requests)) && InFull(old(requests), batch) ==> AllRight(requests)
    {
      hide Valid, Transferred, TakenIn, Malformed;
      var next := 0;
      TakenInAll(requests, requests, batch, 0);
      while next < |batch|
        invariant Valid() && 0 <= next <= |batch| && malformed == old(malformed)
        invariant TakenIn(old(requests), requests, batch, next) && |requests| == |old(requests)|
        invariant outstanding == old(outstanding) - next
        invariant FromBatch(old(requests), requests, batch)
        invariant AllRight(old(requests)) && InFull(old(requests), batch) ==> AllRight(requests)
      {
        var c := batch[next];
        TakenInNext(old(requests), requests, batch, next);
        if c.index >= |requests| {
          malformed := true;
          return Some(UnknownCompletion);
        }
        if !requests[c.index].state.InFlight? {
          malformed := true;
          return Some(UnknownCompletion);
        }
        InFlightAsks(c.index);
        Complete(c.index, c.result);
        next := next + 1;
      }
      TakenInAll(old(requests), requests, batch, next);
      error := None;
    }

    method CompletedRequestAt(offset: nat) returns (r: Option<nat>)
      ensures r.Some? ==>
        r.value < |requests| && requests[r.value].offset == offset && requests[r.value].state.Completed?
      ensures r.None? ==>
        forall i :: 0 <= i < |requests| && requests[i].offset == offset ==> !requests[i].state.Completed?
    {
      for i := 0 to |requests|
        invariant forall j :: 0 <= j < i && requests[j].offset == offset ==> !requests[j].state.Completed?
      {
        if requests[i].offset == offset && requests[i].state.Completed? {
          return Some(i);
        }
      }
      return None;
    }

    /** Hands the chunks to the consumer in file order as they complete, until the end or an error;
        `expected` is the offset at which the consumer stands. */
    method Run(expected: nat, answers: seq<Answer>) returns (outcome: Outcome, delivered: seq<Chunk>, rest: seq<Answer>)
      requires Valid() && expected == nextConsume
      modifies this`requests, this`nextSubmit, this`nextConsume, this`outstanding, this`malformed
      ensures Valid() && |rest| <= |answers| && LeftOf(answers, rest)
      ensures Consecutive(file, delivered, old(nextConsume), nextConsume, chunkSize)
      ensures outcome.Finished? ==> nextConsume == |file|
      // a run fails for one of these reasons only
      ensures outcome.ConsumerError? ==> rest == [] || SomeRefusal(answers, |answers| - |rest|)
      ensures outcome.IoError? ==>
        RunReason(old(requests), answers, rest, outcome.failure, |file|, nextConsume, chunkSize, alignment)
      ensures outcome == IoError(UnknownCompletion) ==> malformed
      ensures outcome != IoError(Cancelled) ==> Uncancelled(answers, rest)
      // and a smooth one finishes, in whatever order the reads complete
      ensures old(SmoothRun(answers)) ==> outcome.Finished?
    {
      hide Valid, Consecutive, HasReason, SomeRefusal, Malformed, Cut, LaterAnswers, LeftOf, AllRight, Smooth,
           SmoothScript, ChunksLeft, NothingNew, FromBatch, Batch, Traced, FailedBefore, Uncancelled;
      Cursors();
      ghost var before := requests;
      delivered := [];
      ConsecutiveNone(file, nextConsume, chunkSize);
      ghost var smooth := SmoothRun(answers);
      var error;
      error, rest := PrimeLimit(|requests|, answers);
      if error.Some? {
        return IoError(error.value), delivered, rest;
      }
      TracedStart(before, answers);
      TracedOn(before, before, requests, answers, 0, |answers| - |rest|);
      NothingNewRight(before, requests);
      var position := expected;
      while nextConsume < |file|
        invariant Valid() && LeftOf(answers, rest) && |rest| <= |answers| && position == nextConsume
        invariant Consecutive(file, delivered, old(nextConsume), nextConsume, chunkSize)
        invariant nextConsume < |file| ==> nextConsume < nextSubmit
        invariant Traced(before, requests, answers, |answers| - |rest|) && Uncancelled(answers, rest)
        invariant smooth ==> !malformed && AllRight(requests) && |rest| >= AnswersNeeded()
        decreases |file| - nextConsume, |rest|
      {
        Cursors();
        OneChunkLess(file, nextConsume, chunkSize);
        UsedOne(answers, rest, |file|);
        UncancelledNext(answers, rest);
        var left := rest;
        var a, more := NextAnswer(rest), rest != [];
        rest := LaterAnswers(rest);
        NothingNewYet(requests);
        TracedOn(before, requests, requests, answers, |answers| - |left|, |answers| - |rest|);
        if a.cancelled || !more {
          ReasonNow(answers, left, Cancelled, alignment);
          return IoError(Cancelled), delivered, rest;
        }
        var ready := CompletedRequestAt(nextConsume);
        if ready.None? {
          error := AwaitCompletions(answers, left, before);
          if error.Some? {
            return IoError(error.value), delivered, rest;
          }
        } else {
          var failed, cs;
          failed, cs, rest := DeliverNext(ready.value, position, a.consumerOk, answers, rest, before);
          if cs != [] {
            ConsecutiveStep(file, delivered, old(nextConsume), position, chunkSize);
            delivered := delivered + cs;
            position := position + |cs[0].data|;
          }
          if failed.Some? {
            return failed.value, delivered, rest;
          }
        }
      }
      Cursors();
      outcome := Finished;
    }

    /** Waits once for reads to complete, going by the next answer of the script. */
    method AwaitCompletions(answers: seq<Answer>, left: seq<Answer>, ghost before: seq<Request>)
      returns (error: Option<Failure>)
      requires Valid() && nextConsume < nextSubmit && left != [] && LeftOf(answers, left)
      requires forall i :: 0 <= i < |requests| && requests[i].offset == nextConsume ==> !requests[i].state.Completed?
      requires Traced(before, requests, answers, |answers| - |left|)
      modifies this`requests, this`outstanding, this`malformed
      ensures Valid() && |requests| == |old(requests)|
      ensures error.Some? ==> forall logical :: HasReason(answers, LaterAnswers(left), error.value, logical, alignment)
      ensures error == Some(UnknownCompletion) ==> malformed
      ensures Traced(before, requests, answers, |answers| - |LaterAnswers(left)|)
      ensures NextAnswer(left).event.Arrivals? ==> error == None && malformed == old(malformed)
      ensures NextAnswer(left).event.Arrivals? ==> outstanding < old(outstanding)
      ensures NextAnswer(left).event.Arrivals? && AllRight(old(requests)) ==> AllRight(requests)
    {
      hide Valid, FromBatch, Batch, Traced, Malformed, AllRight;
      InFlightWhileWaiting();
      var a := NextAnswer(left);
      error := ReceiveCompletions(a.event);
      TracedBatch(before, old(requests), requests, a.event, answers, |answers| - |left|);
      if error.Some? {
        ReasonNow(answers, left, error.value, alignment);
      }
    }

    /** The completed read at the head: why it failed, or the chunk's bytes. */
    method CheckHead(index: nat) returns (error: Option<Failure>)
      requires Valid() && index < |requests| && requests[index].offset == nextConsume
               && requests[index].state.Completed?
      ensures error.Some? ==> error.value != UnknownCompletion && HeadIs(requests, index, error.value, alignment)
      ensures error.None? ==> forall f :: !HeadIs(requests, index, f, alignment)
      ensures error.None? ==> nextConsume < |file| && requests[index].logical <= |requests[index].buffer|
      ensures error.None? ==>
        requests[index].buffer[..requests[index].logical] == file[nextConsume..Min(nextConsume + chunkSize, |file|)]
    {
      hide Tiles, RequestsOk, AlignUp, OnChunk, CountInFlight, AtBoundary;
      HeadAsked(index);
      var request := requests[index];
      if request.state.result.Err? {
        return Some(Code(request.state.result.error));
      }
      var transferred := request.state.result.value;
      if transferred < request.logical || transferred > request.requested {
        return Some(WrongLength);
      }
      ReadyChunk(file, requests, nextConsume, nextSubmit, chunkSize, alignment, index);
      error := None;
    }

    lemma HeadAsked(index: nat)
      requires Valid() && index < |requests| && IsLive(requests[index])
      ensures requests[index].requested == AlignUp(requests[index].logical, alignment)
      ensures requests[index].offset < |file|
              && requests[index].logical == Min(|file| - requests[index].offset, chunkSize)
    {
    }

    /** Hands the chunk at the head to a consumer standing at `position`, and moves past it. */
    method Deliver(index: nat, position: nat, consumerOk: bool) returns (failed: Option<Outcome>, chunk: Chunk)
      requires Valid() && nextConsume < nextSubmit && index < |requests|
      requires requests[index].offset == nextConsume == position && requests[index].state.Completed?
      modifies this`requests, this`nextConsume
      ensures Valid() && |requests| == |old(requests)| && malformed == old(malformed)
      ensures failed.Some? ==> requests == old(requests) && nextConsume == old(nextConsume)
      ensures failed.Some? ==> match failed.value
                               case ConsumerError => !consumerOk
                               case IoError(f) => f != UnknownCompletion && HeadIs(requests, index, f, alignment)
                               case Finished => false
      ensures NothingNew(old(requests), requests)
      ensures failed.None? ==>
        consumerOk && old(nextConsume) < |file| && nextConsume == Min(position + chunkSize, |file|)
      ensures failed.None? ==>
        chunk == Chunk(position, file[position..nextConsume]) && requests[index].state.Idle?
      ensures AllRight(old(requests)) && consumerOk ==> failed.None?
    {
      hide Valid, HeadIs, AllRight, NothingNew;
      NothingNewYet(requests);
      HeadFacts(index);
      chunk := Chunk(position, []);
      var error := CheckHead(index);
      if error.Some? {
        return Some(IoError(error.value)), chunk;
      }
      chunk := Chunk(requests[index].offset, requests[index].buffer[..requests[index].logical]);
      if chunk.offset != position || !consumerOk {
        return Some(ConsumerError), chunk;
      }
      Consume(index);
      failed := None;
    }

    /** Hands over the chunk at the head, then starts the next chunk's read in its request. */
    method DeliverNext(index: nat, position: nat, consumerOk: bool, answers: seq<Answer>, left: seq<Answer>,
                       ghost before: seq<Request>)
      returns (failed: Option<Outcome>, cs: seq<Chunk>, rest: seq<Answer>)
      requires Valid() && nextConsume < nextSubmit && index < |requests| && LeftOf(answers, left) && |left| <= |answers|
      requires requests[index].offset == nextConsume == position && requests[index].state.Completed?
      requires Traced(before, requests, answers, |answers| - |left|)
      modifies this`requests, this`nextSubmit, this`nextConsume, this`outstanding
      ensures Valid() && |requests| == |old(requests)| && |left| - 1 <= |rest| <= |left| && |rest| <= |answers|
              && LeftOf(answers, rest)
      ensures position < |file| && position <= nextConsume <= |file|
      ensures cs == if nextConsume == position then [] else [Chunk(position, file[position..nextConsume])]
      ensures nextConsume == position || nextConsume == Min(position + chunkSize, |file|)
      ensures failed.None? ==>
        consumerOk && position < nextConsume && (nextConsume < |file| ==> nextConsume < nextSubmit)
      ensures failed.Some? ==> match failed.value
                               case ConsumerError => !consumerOk && rest == left
                               case IoError(f) =>
                                 f != UnknownCompletion
                                 && RunReason(before, answers, rest, f, |file|, nextConsume, chunkSize, alignment)
                               case Finished => false
      ensures Traced(before, requests, answers, |answers| - |rest|)
      ensures Uncancelled(answers, left) && failed != Some(IoError(Cancelled)) ==> Uncancelled(answers, rest)
      ensures AllRight(old(requests)) ==> AllRight(requests)
      ensures AllRight(old(requests)) && SmoothScript(answers, |file|) && consumerOk && left != [] ==> failed.None?
      ensures failed.None? ==> AnswersNeeded() == old(AnswersNeeded()) - 2
    {
      hide Valid, HeadIs, AllRight, Awaited, SmoothScript, HasReason, LeftOf, ChunksLeft, NothingNew, Traced,
           FailedBefore, Uncancelled;
      HeadFacts(index);
      rest := left;
      Cursors();
      OneChunkLess(file, position, chunkSize);
      var chunk;
      failed, chunk := Deliver(index, position, consumerOk);
      NothingNewRight(old(requests), requests);
      TracedOn(before, old(requests), requests, answers, |answers| - |left|, |answers| - |left|);
      if failed.Some? {
        if failed.value.IoError? {
          HeadReason(before, requests, answers, left, index, failed.value.failure, alignment);
        }
        return failed, [], rest;
      }
      cs := [chunk];
      Cursors();
      ghost var now := requests;
      var error;
      error, rest := SubmitNext(index, answers, left);
      NothingNewRight(now, requests);
      TracedOn(before, now, requests, answers, |answers| - |left|, |answers| - |rest|);
      failed := if error.Some? then Some(IoError(error.value)) else None;
    }

    lemma HeadFacts(index: nat)
      requires Valid() && index < |requests| && IsLive(requests[index])
      ensures requests[index].logical == if requests[index].offset < |file| then
                                           Min(|file| - requests[index].offset, chunkSize) else 0
      ensures AllRight(requests) ==> forall f :: !HeadIs(requests, index, f, alignment)
    {
      HeadAsked(index);
      hide AlignUp;
    }

    lemma Cursors()
      requires Valid()
      ensures chunkSize > 0 && nextConsume <= nextSubmit <= |file| && AtBoundary(nextConsume, |file|, chunkSize)
      ensures nextConsume < |file| ==> |requests| > 0
    {
    }

    /** The consumer took the chunk at the head: the cursor moves on and its request is idle. */
    method Consume(index: nat)
      requires Valid() && index < |requests| && nextConsume < nextSubmit
      requires requests[index].offset == nextConsume && requests[index].state.Completed?
      modifies this`requests, this`nextConsume
      ensures Valid() && NothingNew(old(requests), requests) && |requests| == |old(requests)|
              && requests[index].state.Idle?
      ensures nextConsume == Min(old(nextConsume) + chunkSize, |file|)
    {
      hide Tiles, AlignUp, OnChunk, CountInFlight;
      HeadOnChunk(requests, nextConsume, nextSubmit, chunkSize, index);
      TilesConsume(requests, nextConsume, nextSubmit, |file|, chunkSize, index, requests[index].(state := Idle));
      CountUpdate(requests, index, requests[index].(state := Idle));
      nextConsume := nextConsume + requests[index].logical;
      requests := requests[index := requests[index].(state := Idle)];
    }

    lemma InFlightWhileWaiting()
      requires Valid() && nextConsume < nextSubmit
      requires forall i :: 0 <= i < |requests| && requests[i].offset == nextConsume ==> !requests[i].state.Completed?
      ensures outstanding >= 1
    {
      WaitsForSomething(requests, nextConsume, nextSubmit, chunkSize);
    }
  }

  lemma Used(answers: seq<Answer>, rest: seq<Answer>)
    requires |rest| <= |answers| && rest == answers[|answers| - |rest|..]
    ensures var later := LaterAnswers(rest);
            && later == answers[|answers| - |later|..]
            && |later| <= |rest| && (rest == [] ==> later == [])
            && (rest != [] ==> |later| == |rest| - 1 && NextAnswer(rest) == answers[|answers| - |rest|])
            && (rest != [] && !NextAnswer(rest).consumerOk ==> SomeRefusal(answers, |answers| - |later|))
  {
    if rest != [] {
      assert answers[|answers| - |rest|] == NextAnswer(rest);
    }
  }

  /** One answer more is used; `len` is the file's length. */
  lemma UsedOne(answers: seq<Answer>, rest: seq<Answer>, len: nat)
    requires LeftOf(answers, rest)
    ensures var later := LaterAnswers(rest);
      && LeftOf(answers, later) && |later| <= |rest| <= |answers| && (rest == [] ==> later == [])
      && (rest != [] ==> |later| == |rest| - 1)
      && (rest != [] ==> NextAnswer(rest) == answers[|answers| - |rest|])
      && (rest != [] && !NextAnswer(rest).consumerOk ==> SomeRefusal(answers, |answers| - |later|))
    ensures SmoothScript(answers, len) && rest != [] ==>
      var a := NextAnswer(rest); !a.cancelled && a.event.Arrivals? && a.consumerOk
  {
    hide SmoothScript;
    Used(answers, rest);
    if SmoothScript(answers, len) { SmoothRest(answers, rest, len); }
  }

  lemma NothingNewYet(requests: seq<Request>)
    ensures NothingNew(requests, requests)
  {
  }

  /** The request at the head completed in a way that is this failure. */
  ghost predicate HeadIs(requests: seq<Request>, index: nat, f: Failure, bits: nat) {
    index < |requests| && requests[index].state.Completed?
    && FailsWith(requests[index].state.result, f, requests[index].logical, bits)
  }

  /** The answer just used is the reason. */
  lemma ReasonNow(answers: seq<Answer>, left: seq<Answer>, f: Failure, bits: nat)
    requires LeftOf(answers, left)
    requires f.Cancelled? || (left != [] && forall logical :: Causes(NextAnswer(left), f, logical, bits))
    requires f.Cancelled? && left != [] ==> NextAnswer(left).cancelled
    ensures forall logical :: HasReason(answers, LaterAnswers(left), f, logical, bits)
  {
    var rest := LaterAnswers(left);
    if left != [] {
      var used := |answers| - |rest|;
      assert answers[|answers| - |left|] == NextAnswer(left);
      forall logical: nat ensures SomeCause(answers, used, f, logical, bits) {
        assert Causes(answers[|answers| - |left|], f, logical, bits);
      }
    }
  }

  /** Why a run of a reader failed that stood at `at` then: an answer it used, or a read that had failed before. */
  ghost predicate RunReason(before: seq<Request>, answers: seq<Answer>, rest: seq<Answer>, f: Failure, len: nat,
                            at: nat, chunk: nat, bits: nat)
  {
    var logical := if at < len then Min(len - at, chunk) else 0;
    HasReason(answers, rest, f, logical, bits) || FailedBefore(before, f, logical, bits)
  }

  lemma ConsecutiveNone(file: seq<Byte>, from: nat, size: nat)
    requires size > 0 && from <= |file|
    ensures Consecutive(file, [], from, from, size)
  {
    assert [] + Cut(file, from, size) == Cut(file, from, size);
  }

  lemma LiveBetween(requests: seq<Request>, lo: nat, hi: nat, chunk: nat, i: nat)
    requires chunk > 0 && Tiles(requests, lo, hi, chunk) && i < |requests| && IsLive(requests[i])
    ensures lo < hi
  {
  }

  lemma HeadOnChunk(requests: seq<Request>, lo: nat, hi: nat, chunk: nat, i: nat)
    requires chunk > 0 && Tiles(requests, lo, hi, chunk) && i < |requests| && IsLive(requests[i])
             && requests[i].offset == lo
    ensures OnChunk(lo, chunk)
  {
  }

  lemma CompletedOk(file: seq<Byte>, r: Request, result: Result<nat, nat>, chunk: nat, k: nat)
    requires chunk > 0 && RequestOk(file, r, chunk, k) && r.state.InFlight?
    ensures r.offset <= |file|
    ensures RequestOk(file, CompletedRequest(file, r, result), chunk, k)
  {
    hide AlignUp;
    if result.Ok? && r.logical <= result.value {
      var b := Transferred(file, r.buffer, r.offset, result.value);
      assert b[..r.logical] == file[r.offset..r.offset + r.logical];
    }
  }

  lemma ReadyChunk(file: seq<Byte>, requests: seq<Request>, lo: nat, hi: nat, chunk: nat, k: nat, i: nat)
    requires chunk > 0 && RequestsOk(file, requests, chunk, k) && i < |requests| && requests[i].offset == lo
    requires requests[i].state.Completed? && requests[i].state.result.Ok?
             && requests[i].logical <= requests[i].state.result.value
    ensures lo < |file| && requests[i].logical == Min(lo + chunk, |file|) - lo
            && requests[i].logical <= |requests[i].buffer|
    ensures requests[i].buffer[..requests[i].logical] == file[lo..Min(lo + chunk, |file|)]
  {
    hide AlignUp;
    assert RequestOk(file, requests[i], chunk, k);
  }

  lemma {:induction false} NoneInFlight(requests: seq<Request>)
    requires forall i :: 0 <= i < |requests| ==> requests[i].state.Idle?
    ensures CountInFlight(requests) == 0
  {
    if requests != [] {
      NoneInFlight(requests[1..]);
    }
  }

  lemma IdleUpdate(requests: seq<Request>, lo: nat, hi: nat, chunk: nat, i: nat, r: Request)
    requires chunk > 0 && Tiles(requests, lo, hi, chunk) && i < |requests| && !IsLive(requests[i]) && !IsLive(r)
    ensures Tiles(requests[i := r], lo, hi, chunk) && CountInFlight(requests[i := r]) == CountInFlight(requests)
  {
    CountUpdate(requests, i, r);
    hide OnChunk, CountInFlight;
    var rs := requests[i := r];
    forall o: nat | lo <= o < hi && OnChunk(o, chunk) ensures HasLive(rs, o) {
      assert HasLive(requests, o);
      var j :| 0 <= j < |requests| && IsLive(requests[j]) && requests[j].offset == o;
      assert rs[j] == requests[j];
    }
  }

  // ----- the retry loop

  /** The next retry's number, counted from the last progress; nothing once the limit is reached. */
  function NextFileRetry(maxRetries: nat, consecutive: nat, madeProgress: bool): (r: Option<nat>)
    ensures r.None? <==> maxRetries == 0 || (!madeProgress && consecutive >= maxRetries)
    ensures r.Some? ==> 1 <= r.value <= maxRetries
  {
    var base := if madeProgress then 0 else consecutive;
    if base >= maxRetries then None else Some(base + 1)
  }

  /** A chunk size and a queue depth the reader accepts. */
  predicate Usable(chunk: nat, bits: nat, queueDepth: nat) {
    chunk <= 0xFFFF_FFFF && 1 <= queueDepth <= 128 && chunk % Pow2(bits) == 0
  }

  /** The file is not the one expected, or the configuration is refused. */
  predicate Unfit(a: Answer, len: nat, chunk: nat, bits: nat, queueDepth: nat) {
    a.fileLength != len || !Usable(chunk, bits, queueDepth)
  }

  /** An open can only fail for one of these reasons. */
  predicate OpenRefused(a: Answer, len: nat, chunk: nat, bits: nat, queueDepth: nat) {
    a.cancelled || a.openError.Some? || Unfit(a, len, chunk, bits, queueDepth)
  }

  ghost predicate SomeUnfit(answers: seq<Answer>, used: nat, len: nat, chunk: nat, bits: nat, queueDepth: nat)
    requires used <= |answers|
  {
    exists i :: 0 <= i < used && Unfit(answers[i], len, chunk, bits, queueDepth)
  }

  /** Why a read failed that stood at `at` then: an answer used caused it, a reader prepared earlier already held
      the failure, the file or the configuration was refused, or the script ran out. */
  ghost predicate HasCause(answers: seq<Answer>, rest: seq<Answer>, f: Failure, held: seq<Request>, len: nat, at: nat,
                           chunk: nat, bits: nat, queueDepth: nat)
  {
    && |rest| <= |answers|
    && (RunReason(held, answers, rest, f, len, at, chunk, bits)
        || (f.Refused? && SomeUnfit(answers, |answers| - |rest|, len, chunk, bits, queueDepth)))
  }

  lemma UnfitInside(answers: seq<Answer>, inner: seq<Answer>, used: nat, len: nat, chunk: nat, bits: nat,
                    queueDepth: nat)
    requires LeftOf(answers, inner) && used <= |inner| && SomeUnfit(inner, used, len, chunk, bits, queueDepth)
    ensures SomeUnfit(answers, |answers| - |inner| + used, len, chunk, bits, queueDepth)
  {
    hide Unfit;
    var i :| 0 <= i < used && Unfit(inner[i], len, chunk, bits, queueDepth);
    assert inner[i] == answers[|answers| - |inner| + i];
  }

  lemma ReasonInside(answers: seq<Answer>, inner: seq<Answer>, rest: seq<Answer>, f: Failure, logical: nat, bits: nat)
    requires LeftOf(answers, inner) && LeftOf(inner, rest) && HasReason(inner, rest, f, logical, bits)
    ensures HasReason(answers, rest, f, logical, bits)
  {
    hide Causes;
    if !(f.Cancelled? && rest == []) {
      var i :| 0 <= i < |inner| - |rest| && Causes(inner[i], f, logical, bits);
      assert inner[i] == answers[|answers| - |inner| + i];
    }
  }

  lemma RefusalInside(answers: seq<Answer>, inner: seq<Answer>, rest: seq<Answer>)
    requires LeftOf(answers, inner) && LeftOf(inner, rest)
    ensures LeftOf(answers, rest) && |rest| <= |inner| <= |answers|
    ensures SomeRefusal(inner, |inner| - |rest|) ==> SomeRefusal(answers, |answers| - |rest|)
  {
    if SomeRefusal(inner, |inner| - |rest|) {
      var i :| 0 <= i < |inner| - |rest| && !inner[i].consumerOk;
      assert inner[i] == answers[|answers| - |inner| + i];
    }
  }

  /** What an attempt reports of its part of the script holds of the whole script. */
  lemma CauseInside(answers: seq<Answer>, inner: seq<Answer>, rest: seq<Answer>, f: Failure, held: seq<Request>,
                    len: nat, at: nat, chunk: nat, bits: nat, queueDepth: nat)
    requires LeftOf(answers, inner) && LeftOf(inner, rest)
    requires HasCause(inner, rest, f, held, len, at, chunk, bits, queueDepth)
    ensures HasCause(answers, rest, f, held, len, at, chunk, bits, queueDepth)
  {
    hide HasReason, SomeUnfit, FailedBefore;
    var logical := if at < len then Min(len - at, chunk) else 0;
    if HasReason(inner, rest, f, logical, bits) {
      ReasonInside(answers, inner, rest, f, logical, bits);
    }
    if SomeUnfit(inner, |inner| - |rest|, len, chunk, bits, queueDepth) {
      UnfitInside(answers, inner, |inner| - |rest|, len, chunk, bits, queueDepth);
    }
  }

  /** What the next answer can make fail before a read: the read as a whole, or the open. */
  predicate StopsAtOnce(a: Answer, f: Failure, len: nat, chunk: nat, bits: nat, queueDepth: nat) {
    match f
    case Cancelled => a.cancelled
    case Code(code) => a.openError == Some(code)
    case Refused => !a.cancelled && Unfit(a, len, chunk, bits, queueDepth)
    case _ => false
  }

  lemma CauseNow(answers: seq<Answer>, rest: seq<Answer>, f: Failure, held: seq<Request>, len: nat, at: nat, chunk: nat,
                 bits: nat, queueDepth: nat)
    requires LeftOf(answers, rest) && StopsAtOnce(NextAnswer(rest), f, len, chunk, bits, queueDepth)
    ensures HasCause(answers, LaterAnswers(rest), f, held, len, at, chunk, bits, queueDepth)
  {
    if rest != [] {
      assert answers[|answers| - |rest|] == NextAnswer(rest);
    }
    hide Unfit;
    if !f.Refused? {
      ReasonNow(answers, rest, f, bits);
    }
  }

  lemma NextLeft(answers: seq<Answer>, rest: seq<Answer>)
    requires LeftOf(answers, rest)
    ensures LeftOf(answers, LaterAnswers(rest)) && |LaterAnswers(rest)| <= |rest| <= |answers|
  {
  }

  // ----- how often a read was worth a retry

  /** Something that passes may have gone wrong at this answer: a code that is not fatal, a stall, or a read that
      moved too little or too much. */
  ghost predicate MayPass(a: Answer, fatalCodes: set<nat>) {
    (exists code :: code !in fatalCodes && Reports(a, code)) || (a.event.Timeout? && a.event.stalled)
    || exists n: nat :: Says(a.event, Ok(n))
  }

  ghost function Passing(answers: seq<Answer>, fatalCodes: set<nat>): nat {
    if answers == [] then 0
    else Passing(answers[..|answers| - 1], fatalCodes)
         + (if MayPass(answers[|answers| - 1], fatalCodes) then 1 else 0)
  }

  lemma {:induction false} PassingMore(answers: seq<Answer>, i: nat, j: nat, fatalCodes: set<nat>)
    requires i <= j <= |answers|
    ensures Passing(answers[..i], fatalCodes) <= Passing(answers[..j], fatalCodes)
    ensures (exists k :: i <= k < j && MayPass(answers[k], fatalCodes)) ==>
      Passing(answers[..i], fatalCodes) < Passing(answers[..j], fatalCodes)
    decreases j
  {
    hide MayPass;
    if i < j {
      PassingMore(answers, i, j - 1, fatalCodes);
      assert answers[..j][..j - 1] == answers[..j - 1];
    }
  }

  /** A failure worth a retry that an attempt's part of the script caused. */
  lemma OnePassed(answers: seq<Answer>, inner: seq<Answer>, rest: seq<Answer>, f: Failure, held: seq<Request>, len: nat,
                  at: nat, chunk: nat, bits: nat, queueDepth: nat, fatalCodes: set<nat>)
    requires LeftOf(answers, inner) && LeftOf(inner, rest) && Retryable(f, fatalCodes)
    requires HasCause(inner, rest, f, held, len, at, chunk, bits, queueDepth)
    ensures Passing(answers[..|answers| - |inner|], fatalCodes) + (if held == [] then 1 else 0)
            <= Passing(answers[..|answers| - |rest|], fatalCodes)
  {
    var logical := if at < len then Min(len - at, chunk) else 0;
    PassingMore(answers, |answers| - |inner|, |answers| - |rest|, fatalCodes);
    if held == [] {
      assert !FailedBefore(held, f, logical, bits);
      var i :| 0 <= i < |inner| - |rest| && Causes(inner[i], f, logical, bits);
      assert inner[i] == answers[|answers| - |inner| + i];
      assert MayPass(inner[i], fatalCodes);
    }
  }

  /** A script in which nothing goes wrong, long enough to read the rest of the file. */
  ghost predicate SmoothFile(file: seq<Byte>, position: nat, chunk: nat, queueDepth: nat, answers: seq<Answer>)
    requires chunk > 0
  {
    SmoothScript(answers, |file|) && |answers| >= 1 + queueDepth + 3 * ChunksLeft(file, position, chunk)
  }

  lemma SmoothOpens(file: seq<Byte>, position: nat, chunk: nat, bits: nat, queueDepth: nat, answers: seq<Answer>)
    requires chunk > 0 && SmoothFile(file, position, chunk, queueDepth, answers)
    ensures |LaterAnswers(answers)| == |answers| - 1 && SmoothScript(LaterAnswers(answers), |file|)
    ensures Usable(chunk, bits, queueDepth) ==> !OpenRefused(NextAnswer(answers), |file|, chunk, bits, queueDepth)
    ensures !NextAnswer(answers).cancelled
  {
    UsedOne(answers, answers, |file|);
    SmoothRest(answers, answers, |file|);
    SmoothRest(answers, LaterAnswers(answers), |file|);
  }

  /** One attempt: a prepared reader, or one handle at the current offset, run until it stops. */
  method Attempt(file: seq<Byte>, position: nat, chunk: nat, bits: nat, queueDepth: nat,
                 prepared: AsyncSequentialReader?, answers: seq<Answer>, left: seq<Answer>, ghost fatalCodes: set<nat>)
    returns (outcome: Outcome, delivered: seq<Chunk>, next: nat, rest: seq<Answer>)
    requires chunk > 0 && position < |file| && OnChunk(position, chunk) && LeftOf(answers, left)
    requires prepared != null ==>
      prepared.Valid() && prepared.file == file && prepared.chunkSize == chunk && prepared.alignment == bits
      && prepared.nextConsume == position
    modifies prepared
    ensures |rest| <= |answers| && LeftOf(answers, rest)
    ensures Consecutive(file, delivered, position, next, chunk) && AtBoundary(next, |file|, chunk)
    ensures outcome.Finished? ==> next == |file|
    ensures outcome.ConsumerError? ==> rest == [] || SomeRefusal(answers, |answers| - |rest|)
    ensures outcome.IoError? ==>
      HasCause(answers, rest, outcome.failure, if prepared == null then [] else old(prepared.requests), |file|, next,
               chunk, bits, queueDepth)
    ensures Passing(answers[..|answers| - |left|], fatalCodes)
            + (if outcome.IoError? && prepared == null && Retryable(outcome.failure, fatalCodes) then 1 else 0)
            <= Passing(answers[..|answers| - |rest|], fatalCodes)
    ensures Uncancelled(answers, left) && outcome != IoError(Cancelled) ==> Uncancelled(answers, rest)
    // a smooth attempt finishes
    ensures SmoothFile(file, position, chunk, queueDepth, left)
            && (if prepared == null then Usable(chunk, bits, queueDepth) else old(prepared.Untroubled(queueDepth))) ==>
      outcome.Finished?
  {
    hide Consecutive, SomeRefusal, OnChunk, OpenRefused, NextAnswer, LaterAnswers, StopsAtOnce, RunReason,
         HasCause, Retryable, Passing, Uncancelled, AsyncSequentialReader.Valid, Malformed, Cut, SmoothScript, Usable,
           AllRight, ChunksLeft, LeftOf;
    if SmoothFile(file, position, chunk, queueDepth, left) {
      SmoothOpens(file, position, chunk, bits, queueDepth, left);
    }
    ConsecutiveNone(file, position, chunk);
    NextLeft(answers, left);
    UncancelledNext(answers, left);
    MorePassing(answers, left, fatalCodes);
    var reader: AsyncSequentialReader;
    var script := left;
    ghost var held: seq<Request> := [];
    if prepared != null {
      reader, held := prepared, prepared.requests;
    } else {
      var handle := AsyncSequentialReader.Open(file, |file|, position, chunk, bits, queueDepth, NextAnswer(left));
      script := LaterAnswers(left);
      if handle.Err? {
        CauseNow(answers, left, handle.error, held, |file|, position, chunk, bits, queueDepth);
        OpenPassed(answers, left, handle.error, |file|, chunk, bits, queueDepth, fatalCodes);
        return IoError(handle.error), [], position, script;
      }
      reader := handle.value;
    }
    reader.Cursors();
    ghost var before := reader.requests;
    outcome, delivered, rest := reader.Run(position, script);
    next := reader.nextConsume;
    RefusalInside(answers, script, rest);
    UncancelledInside(answers, script, rest);
    PassingLater(answers, script, rest, fatalCodes);
    reader.Cursors();
    if outcome.IoError? {
      NoneBefore(before, held, script, rest, outcome.failure, |file|, next, chunk, bits);
      RunCause(script, rest, outcome.failure, held, |file|, next, chunk, bits, queueDepth);
      if Retryable(outcome.failure, fatalCodes) {
        OnePassed(answers, script, rest, outcome.failure, held, |file|, next, chunk, bits, queueDepth, fatalCodes);
      }
      CauseInside(answers, script, rest, outcome.failure, held, |file|, next, chunk, bits, queueDepth);
    }
  }

  /** An open that failed on a code that is not fatal. */
  lemma OpenPassed(answers: seq<Answer>, left: seq<Answer>, f: Failure, len: nat, chunk: nat, bits: nat,
                   queueDepth: nat, fatalCodes: set<nat>)
    requires LeftOf(answers, left) && StopsAtOnce(NextAnswer(left), f, len, chunk, bits, queueDepth)
    ensures Retryable(f, fatalCodes) ==>
      Passing(answers[..|answers| - |left|], fatalCodes) + 1
      <= Passing(answers[..|answers| - |LaterAnswers(left)|], fatalCodes)
  {
    hide Unfit;
    PassingMore(answers, |answers| - |left|, |answers| - |LaterAnswers(left)|, fatalCodes);
    if Retryable(f, fatalCodes) {
      assert left != [] && answers[|answers| - |left|] == NextAnswer(left);
      assert Reports(NextAnswer(left), f.code);
      assert MayPass(answers[|answers| - |left|], fatalCodes);
    }
  }

  lemma RunCause(answers: seq<Answer>, rest: seq<Answer>, f: Failure, held: seq<Request>, len: nat, at: nat, chunk: nat,
                 bits: nat, queueDepth: nat)
    requires |rest| <= |answers| && RunReason(held, answers, rest, f, len, at, chunk, bits)
    ensures HasCause(answers, rest, f, held, len, at, chunk, bits, queueDepth)
  {
  }

  /** A handle just opened holds no failure. */
  lemma NoneBefore(before: seq<Request>, held: seq<Request>, answers: seq<Answer>, rest: seq<Answer>, f: Failure,
                   len: nat, at: nat, chunk: nat, bits: nat)
    requires before == held || forall i :: 0 <= i < |before| ==> before[i].state.Idle?
    ensures RunReason(before, answers, rest, f, len, at, chunk, bits) ==>
      RunReason(held, answers, rest, f, len, at, chunk, bits)
  {
    hide HasReason;
  }

  /** The same for a read of the whole file, which looks at the cancellation once before it opens. */
  ghost predicate GoesSmoothly(file: seq<Byte>, chunk: nat, queueDepth: nat, answers: seq<Answer>)
    requires chunk > 0
  {
    answers != [] && Smooth(answers[0], |file|) && SmoothFile(file, 0, chunk, queueDepth, answers[1..])
  }

  lemma FirstSmooth(file: seq<Byte>, chunk: nat, bits: nat, queueDepth: nat, answers: seq<Answer>)
    requires chunk > 0 && GoesSmoothly(file, chunk, queueDepth, answers)
    ensures !NextAnswer(answers).cancelled && SmoothFile(file, 0, chunk, queueDepth, LaterAnswers(answers))
    ensures Usable(chunk, bits, queueDepth) ==> !OpenRefused(NextAnswer(answers), |file|, chunk, bits, queueDepth)
  {
  }

  /** Reads a whole file: after a retryable failure the next attempt starts at the last consumed
      offset.  Terminates by (bytes left, retries left). */
  method ReadFileOverlapped(file: seq<Byte>, expectedLen: nat, chunk: nat, bits: nat, queueDepth: nat,
                            fatalCodes: set<nat>, maxRetries: nat, prepared: AsyncSequentialReader?,
                            initialError: Option<Failure>, answers: seq<Answer>)
    returns (outcome: Outcome, delivered: seq<Chunk>, position: nat, retries: nat, rest: seq<Answer>)
    requires expectedLen == |file| && chunk > 0
    requires prepared != null ==>
      prepared.Valid() && prepared.file == file && prepared.chunkSize == chunk && prepared.alignment == bits
      && prepared.nextConsume == 0
    modifies prepared
    ensures |rest| <= |answers|
    // what the consumer got is the file's pieces in order, without gap or repetition, and all of them on success
    ensures Consecutive(file, delivered, 0, position, chunk)
    ensures outcome.Finished? ==> delivered == Cut(file, 0, chunk) && position == |file|
    // a read ends early only for a reason
    ensures outcome.ConsumerError? ==> rest == [] || SomeRefusal(answers, |answers| - |rest|)
    ensures outcome.IoError? ==>
      || initialError == Some(outcome.failure)
      || HasCause(answers, rest, outcome.failure, if prepared == null then [] else old(prepared.requests), |file|,
                  position, chunk, bits, queueDepth)
    // with retries left it ends only when cancelled, or on a failure that cannot pass
    ensures outcome.IoError? && |file| > 0 && retries < maxRetries ==>
      match outcome.failure
      case Code(code) => code in fatalCodes
      case Stalled => false
      case WrongLength => false
      case _ => true
    // every retry had an answer that may pass for its cause, or what a preparation left
    ensures retries <= Excused(prepared, initialError) + Passing(answers[..|answers| - |rest|], fatalCodes)
    ensures outcome.IoError? && |file| > 0 && Retryable(outcome.failure, fatalCodes) ==>
      maxRetries < Excused(prepared, initialError) + Passing(answers[..|answers| - |rest|], fatalCodes)
    // a failed preparation is given back when it cannot pass, an empty file is only opened
    ensures initialError.Some? && (maxRetries == 0 || !Retryable(initialError.value, fatalCodes)) ==>
      outcome == IoError(initialError.value) && delivered == [] && rest == answers
    ensures |file| == 0 && prepared == null && initialError.None? ==>
      (outcome.Finished? <==> !OpenRefused(NextAnswer(answers), 0, chunk, bits, queueDepth))
    // a cancellation seen is the end
    ensures outcome != IoError(Cancelled) ==> Uncancelled(answers, rest)
    // when nothing goes wrong, in whatever order the reads complete, the whole file is read
    ensures initialError.None? && GoesSmoothly(file, chunk, queueDepth, answers)
            && (if prepared == null then Usable(chunk, bits, queueDepth) else old(prepared.Untroubled(queueDepth))) ==>
      outcome.Finished?
  {
    hide Consecutive, SomeRefusal, StopsAtOnce, HasCause, GoesSmoothly, SmoothFile, Usable, Unfit, LaterAnswers,
         AsyncSequentialReader.Untroubled, AsyncSequentialReader.Valid, Malformed, Cut, OnChunk, Passing, Uncancelled;
    if GoesSmoothly(file, chunk, queueDepth, answers) { FirstSmooth(file, chunk, bits, queueDepth, answers); }
    AllAnswersLeft(answers);
    position, retries, rest, delivered := 0, 0, answers, [];
    ghost var held: seq<Request> := if prepared == null then [] else prepared.requests;
    ConsecutiveNone(file, 0, chunk);
    CutEnd(file, chunk);
    NoneUsed(answers, fatalCodes);
    if initialError.Some? {
      outcome := IoError(initialError.value);
      if !Retryable(initialError.value, fatalCodes) {
        return;
      }
      var again := NextFileRetry(maxRetries, retries, false);
      if again.None? {
        return;
      }
      retries := again.value;
      var stop;
      stop, rest := LookForCancel(answers, rest, fatalCodes, held, |file|, position, chunk, bits, queueDepth);
      if stop {
        outcome := IoError(Cancelled);
        return;
      }
    }
    if expectedLen == 0 {
      if prepared == null {
        NextLeft(answers, rest);
        UncancelledNext(answers, rest);
        MorePassing(answers, rest, fatalCodes);
        var handle := AsyncSequentialReader.Open(file, expectedLen, 0, chunk, bits, queueDepth, NextAnswer(rest));
        ghost var left := rest;
        rest := LaterAnswers(rest);
        if handle.Err? {
          CauseNow(answers, left, handle.error, held, |file|, 0, chunk, bits, queueDepth);
          outcome := IoError(handle.error);
          return;
        }
      }
      outcome := Finished;
      return;
    }
    outcome, delivered, position, retries, rest :=
      ReadOn(file, chunk, bits, queueDepth, fatalCodes, maxRetries, prepared, retries, answers, rest);
  }

  lemma NoneUsed(answers: seq<Answer>, fatalCodes: set<nat>)
    ensures Passing(answers[..|answers| - |answers|], fatalCodes) == 0
  {
  }

  /** The attempts: each starts where consumption stopped, with a prepared reader or a handle of its own.
      `started` retries were used up by a failed preparation. */
  method ReadOn(file: seq<Byte>, chunk: nat, bits: nat, queueDepth: nat, fatalCodes: set<nat>, maxRetries: nat,
                prepared: AsyncSequentialReader?, started: nat, answers: seq<Answer>, left: seq<Answer>)
    returns (outcome: Outcome, delivered: seq<Chunk>, position: nat, retries: nat, rest: seq<Answer>)
    requires chunk > 0 && |file| > 0 && started <= maxRetries && LeftOf(answers, left)
    requires prepared != null ==>
      prepared.Valid() && prepared.file == file && prepared.chunkSize == chunk && prepared.alignment == bits
      && prepared.nextConsume == 0
    modifies prepared
    ensures |rest| <= |answers| && Consecutive(file, delivered, 0, position, chunk)
    ensures outcome.Finished? ==> delivered == Cut(file, 0, chunk) && position == |file|
    ensures outcome.ConsumerError? ==> rest == [] || SomeRefusal(answers, |answers| - |rest|)
    ensures outcome.IoError? ==>
      HasCause(answers, rest, outcome.failure, if prepared == null then []
        else old(prepared.requests), |file|, position,
               chunk, bits, queueDepth)
    ensures outcome.IoError? && Retryable(outcome.failure, fatalCodes) ==> retries >= maxRetries
    ensures var passed := Passing(answers[..|answers| - |rest|], fatalCodes) + (if prepared == null then 0 else 1);
            var before := Passing(answers[..|answers| - |left|], fatalCodes);
            && retries + before <= started + passed
            && (outcome.IoError? && Retryable(outcome.failure, fatalCodes) ==> maxRetries + before < started + passed)
    ensures Uncancelled(answers, left) && outcome != IoError(Cancelled) ==> Uncancelled(answers, rest)
    ensures GoesSmoothly(file, chunk, queueDepth, left)
            && (if prepared == null then Usable(chunk, bits, queueDepth) else old(prepared.Untroubled(queueDepth))) ==>
      outcome.Finished?
  {
    hide Consecutive, SomeRefusal, OpenRefused, StopsAtOnce, HasCause, GoesSmoothly, Unfit, SmoothFile, Usable,
         NextAnswer, LaterAnswers, LeftOf, AsyncSequentialReader.Untroubled, AsyncSequentialReader.Valid, Malformed,
           Cut,
         OnChunk, Passing, Uncancelled;
    ghost var smooth := GoesSmoothly(file, chunk, queueDepth, left)
      && (if prepared == null then Usable(chunk, bits, queueDepth) else prepared.Untroubled(queueDepth));
    if GoesSmoothly(file, chunk, queueDepth, left) { FirstSmooth(file, chunk, bits, queueDepth, left); }
    position, retries, rest, delivered := 0, started, left, [];
    ghost var held: seq<Request> := if prepared == null then [] else prepared.requests;
    NextLeft(answers, left);
    ConsecutiveNone(file, 0, chunk);
    CutEnd(file, chunk);
    var reader := prepared;
    while position < |file|
      invariant |rest| <= |answers| && LeftOf(answers, rest)
      invariant Consecutive(file, delivered, 0, position, chunk) && position <= |file|
                && AtBoundary(position, |file|, chunk)
      invariant retries <= maxRetries
      invariant Uncancelled(answers, left) ==> Uncancelled(answers, rest)
      invariant retries + Passing(answers[..|answers| - |left|], fatalCodes)
                <= started + (if prepared != null && reader == null then 1 else 0)
                   + Passing(answers[..|answers| - |rest|], fatalCodes)
      invariant smooth ==> position == 0 && rest == left && reader == prepared
      invariant smooth && reader != null ==> reader.Untroubled(queueDepth)
      invariant reader == null || (reader == prepared && reader.requests == held)
      invariant reader != null ==>
        reader.Valid() && reader.file == file && reader.chunkSize == chunk && reader.alignment == bits
        && reader.nextConsume == position
      decreases |file| - position, maxRetries - retries
    {
      var stop;
      stop, rest := LookForCancel(answers, rest, fatalCodes, held, |file|, position, chunk, bits, queueDepth);
      if stop {
        outcome := IoError(Cancelled);
        return;
      }
      var attemptOffset := position;
      var cs;
      ghost var had := if reader == null then [] else held;
      outcome, cs, position, rest := Attempt(file, attemptOffset, chunk, bits, queueDepth, reader, answers, rest,
                                             fatalCodes);
      if outcome.IoError? {
        HeldMore(answers, rest, outcome.failure, had, held, |file|, position, chunk, bits, queueDepth);
      }
      reader := null;
      ConsecutiveJoin(file, delivered, cs, 0, attemptOffset, position, chunk);
      delivered := delivered + cs;
      ConsecutiveBounds(file, cs, attemptOffset, position, chunk);
      if outcome.Finished? || outcome.ConsumerError? || !Retryable(outcome.failure, fatalCodes) {
        ConsecutiveEnd(file, delivered, position, chunk);
        return;
      }
      var again := NextFileRetry(maxRetries, retries, position > attemptOffset);
      if again.None? {
        retries := if position > attemptOffset then 0 else retries;
        return;
      }
      retries := again.value;
      stop, rest := LookForCancel(answers, rest, fatalCodes, held, |file|, position, chunk, bits, queueDepth);
      if stop {
        outcome := IoError(Cancelled);
        return;
      }
    }
    ConsecutiveEnd(file, delivered, position, chunk);
    outcome := Finished;
  }

  /** What a read may be retried for before the first answer: the failure of a preparation, and what a reader
      prepared earlier holds. */
  function Excused(prepared: AsyncSequentialReader?, initialError: Option<Failure>): nat {
    (if initialError.Some? then 1 else 0) + (if prepared != null then 1 else 0)
  }

  /** Looks at the next answer for a cancellation. */
  method LookForCancel(answers: seq<Answer>, left: seq<Answer>, ghost fatalCodes: set<nat>, ghost held: seq<Request>,
                       ghost len: nat, ghost at: nat, ghost chunk: nat, ghost bits: nat, ghost queueDepth: nat)
    returns (stop: bool, rest: seq<Answer>)
    requires LeftOf(answers, left)
    ensures stop == NextAnswer(left).cancelled && rest == LaterAnswers(left)
    ensures LeftOf(answers, rest) && |rest| <= |left| <= |answers|
    ensures stop ==> HasCause(answers, rest, Cancelled, held, len, at, chunk, bits, queueDepth)
    ensures Passing(answers[..|answers| - |left|], fatalCodes) <= Passing(answers[..|answers| - |rest|], fatalCodes)
    ensures Uncancelled(answers, left) && !stop ==> Uncancelled(answers, rest)
  {
    hide HasCause;
    NextLeft(answers, left);
    UncancelledNext(answers, left);
    MorePassing(answers, left, fatalCodes);
    stop, rest := NextAnswer(left).cancelled, LaterAnswers(left);
    if stop { CauseNow(answers, left, Cancelled, held, len, at, chunk, bits, queueDepth); }
  }

  lemma MorePassing(answers: seq<Answer>, rest: seq<Answer>, fatalCodes: set<nat>)
    requires LeftOf(answers, rest)
    ensures Passing(answers[..|answers| - |rest|], fatalCodes)
            <= Passing(answers[..|answers| - |LaterAnswers(rest)|], fatalCodes)
  {
    PassingMore(answers, |answers| - |rest|, |answers| - |LaterAnswers(rest)|, fatalCodes);
  }

  lemma PassingLater(answers: seq<Answer>, inner: seq<Answer>, rest: seq<Answer>, fatalCodes: set<nat>)
    requires LeftOf(answers, inner) && LeftOf(inner, rest)
    ensures Passing(answers[..|answers| - |inner|], fatalCodes) <= Passing(answers[..|answers| - |rest|], fatalCodes)
  {
    PassingMore(answers, |answers| - |inner|, |answers| - |rest|, fatalCodes);
  }

  lemma HeldMore(answers: seq<Answer>, rest: seq<Answer>, f: Failure, had: seq<Request>, held: seq<Request>, len: nat,
                 at: nat, chunk: nat, bits: nat, queueDepth: nat)
    requires HasCause(answers, rest, f, had, len, at, chunk, bits, queueDepth) && (had == [] || had == held)
    ensures HasCause(answers, rest, f, held, len, at, chunk, bits, queueDepth)
  {
    hide HasReason;
  }

  lemma ConsecutiveBounds(file: seq<Byte>, cs: seq<Chunk>, from: nat, to: nat, size: nat)
    requires size > 0 && Consecutive(file, cs, from, to, size)
    ensures from <= to <= |file|
  {
  }

  lemma ConsecutiveEnd(file: seq<Byte>, cs: seq<Chunk>, to: nat, size: nat)
    requires size > 0 && Consecutive(file, cs, 0, to, size)
    ensures to == |file| ==> cs == Cut(file, 0, size)
  {
    if to == |file| {
      assert Cut(file, to, size) == [];
      assert cs + [] == cs;
    }
  }

  lemma CutEnd(file: seq<Byte>, size: nat)
    requires size > 0
    ensures |file| == 0 ==> Cut(file, 0, size) == []
    ensures OnChunk(0, size)
  {
  }
}
