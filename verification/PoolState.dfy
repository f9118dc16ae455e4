/** The small-file pool's bookkeeping: entries, per-size-class queues with lazy deletion, and
    the byte budget.  Generations are unbounded here (the code wraps at 2^64). */
module PoolState {
  import opened Common

  const SMALL_BUFFER_CLASSES: seq<nat> :=
    [4 * 1024, 16 * 1024, 64 * 1024, 256 * 1024, 1024 * 1024, 2 * 1024 * 1024, 4 * 1024 * 1024]

  const CLASS_COUNT: nat := 8

  /** Queue class and buffer capacity for a file length; `None` for a file that is not small. */
  function BufferClass(len: nat): Option<(nat, nat)> {
    if len == 0 then Some((0, 0)) else BufferClassFrom(len, 0)
  }

  function BufferClassFrom(len: nat, i: nat): Option<(nat, nat)>
    requires i <= |SMALL_BUFFER_CLASSES|
    decreases |SMALL_BUFFER_CLASSES| - i
  {
    if i == |SMALL_BUFFER_CLASSES| then None
    else if len <= SMALL_BUFFER_CLASSES[i] then Some((i + 1, SMALL_BUFFER_CLASSES[i]))
    else BufferClassFrom(len, i + 1)
  }

  function QueueCapacity(class_: nat): nat {
    if 1 <= class_ <= |SMALL_BUFFER_CLASSES| then SMALL_BUFFER_CLASSES[class_ - 1] else 0
  }

  datatype Status =
    | Pending
    | Opening
    | InFlight
    | Ready(reserved: nat)
    | Failed(retryable: bool)
    | Borrowed

  datatype Entry = Entry(len: nat, status: Status, attempts: nat, generation: nat, retryBuffer: Option<nat>)

  datatype Item = Item(index: nat, generation: nat, priority: bool)

  datatype Limits = Limits(active: nat, bytes: nat, reserve: nat, maxRetries: nat)

  /** `opening` and `operations` are the reservations carried by the open workers and by the reads
      in flight; `demand` is the file the ordered consumer is waiting for or reading. */
  datatype State = State(
    entries: map<nat, Entry>, queues: seq<seq<Item>>, nextGeneration: nat,
    activeFiles: nat, reservedBytes: nat, opening: map<nat, nat>, operations: map<nat, nat>, demand: Option<nat>)

  function ClassOf(len: nat): nat { match BufferClass(len) case Some((c, _)) => c case None => 0 }

  function Capacity(len: nat): nat { match BufferClass(len) case Some((_, k)) => k case None => 0 }

  lemma {:induction false} BufferClassFromFacts(len: nat, i: nat)
    requires i <= |SMALL_BUFFER_CLASSES|
    ensures match BufferClassFrom(len, i)
            case Some((c, k)) => i < c < CLASS_COUNT && k == QueueCapacity(c) && len <= k
                                 && (forall j :: i <= j < c - 1 ==> SMALL_BUFFER_CLASSES[j] < len)
            case None => forall j :: i <= j < |SMALL_BUFFER_CLASSES| ==> SMALL_BUFFER_CLASSES[j] < len
    decreases |SMALL_BUFFER_CLASSES| - i
  {
    if i < |SMALL_BUFFER_CLASSES| && len > SMALL_BUFFER_CLASSES[i] {
      BufferClassFromFacts(len, i + 1);
    }
  }

  /** A file's buffer is large enough for it, and is the smallest class that is. */
  lemma CapacityFits(len: nat)
    requires BufferClass(len).Some?
    ensures len <= Capacity(len) == QueueCapacity(ClassOf(len)) && ClassOf(len) < CLASS_COUNT
  {
    if len > 0 {
      BufferClassFromFacts(len, 0);
    }
  }

  /** The buffer sizes, in bytes, with none for an empty file. */
  const SIZES: set<nat> := {0, 4096, 16384, 65536, 262144, 1048576, 2097152, 4194304}

  /** A file is small up to 4 MiB, and gets the least of the sizes that takes it. */
  lemma CapacityLeast(len: nat)
    ensures BufferClass(len).Some? <==> len <= 4194304
    ensures BufferClass(len).Some? ==>
      len <= Capacity(len) && Capacity(len) in SIZES && forall size :: size in SIZES && len <= size ==>
        Capacity(len) <= size
  {
    assert SMALL_BUFFER_CLASSES == [4096, 16384, 65536, 262144, 1048576, 2097152, 4194304];
    if len > 0 {
      BufferClassFromFacts(len, 0);
      forall size | size in SIZES && len <= size && BufferClass(len).Some? ensures Capacity(len) <= size {
        var i := if size == 4096 then 0 else if size == 16384 then 1 else if size == 65536 then 2
          else if size == 262144 then 3 else if size == 1048576 then 4 else if size == 2097152 then 5 else 6;
        assert SMALL_BUFFER_CLASSES[i] == size;
        assert i >= ClassOf(len) - 1;
        assert forall a, b :: 0 <= a <= b < |SMALL_BUFFER_CLASSES| ==>
          SMALL_BUFFER_CLASSES[a] <= SMALL_BUFFER_CLASSES[b];
      }
    }
  }

  /** No file up to the threshold needs more than the threshold's own class. */
  lemma CapacityMonotone(len: nat, threshold: nat)
    requires len <= threshold && BufferClass(threshold).Some?
    ensures BufferClass(len).Some? && Capacity(len) <= Capacity(threshold)
  {
    if len > 0 {
      BufferClassFromFacts(len, 0);
      BufferClassFromFacts(threshold, 0);
      assert threshold <= SMALL_BUFFER_CLASSES[ClassOf(threshold) - 1];
      assert ClassOf(len) <= ClassOf(threshold);
      assert forall i, j :: 0 <= i <= j < |SMALL_BUFFER_CLASSES| ==> SMALL_BUFFER_CLASSES[i] <= SMALL_BUFFER_CLASSES[j];
    }
  }

  // ----- sums over the entries

  ghost function Total(m: map<nat, Entry>, w: (nat, Entry) -> nat): nat
    decreases |m|
  {
    if m == map[] then 0
    else var k :| k in m; w(k, m[k]) + Total(m - {k}, w)
  }

  lemma {:induction false} TotalRemove(m: map<nat, Entry>, w: (nat, Entry) -> nat, k: nat)
    requires k in m
    ensures Total(m, w) == w(k, m[k]) + Total(m - {k}, w)
    decreases |m|
  {
    var j :| j in m && Total(m, w) == w(j, m[j]) + Total(m - {j}, w);
    if j != k {
      TotalRemove(m - {j}, w, k);
      TotalRemove(m - {k}, w, j);
      assert m - {j} - {k} == m - {k} - {j};
    }
  }

  lemma TotalSet(m: map<nat, Entry>, w: (nat, Entry) -> nat, k: nat, e: Entry)
    ensures Total(m[k := e], w) == w(k, e) + Total(m - {k}, w)
  {
    TotalRemove(m[k := e], w, k);
    assert m[k := e] - {k} == m - {k};
  }

  lemma {:induction false} TotalPositive(m: map<nat, Entry>, w: (nat, Entry) -> nat)
    requires Total(m, w) > 0
    ensures exists k :: k in m && w(k, m[k]) > 0
    decreases |m|
  {
    if m != map[] {
      var j :| j in m;
      TotalRemove(m, w, j);
      if w(j, m[j]) == 0 {
        TotalPositive(m - {j}, w);
      }
    }
  }

  // ----- the budget

  /** Budget an entry holds: from its admission until its release, across failures and retries. */
  function Holding(e: Entry): nat {
    match e.status
    case Pending => if e.retryBuffer.Some? then e.retryBuffer.value else 0
    case _ => Capacity(e.len)
  }

  function Active(e: Entry): nat { if e.status.Opening? || e.status.InFlight? then 1 else 0 }

  const HoldingWeight: (nat, Entry) -> nat := (k, e) => Holding(e)

  const ActiveWeight: (nat, Entry) -> nat := (k, e) => Active(e)

  predicate EntryOk(e: Entry, lim: Limits) {
    && BufferClass(e.len).Some? && Capacity(e.len) <= lim.reserve
    && e.attempts <= lim.maxRetries + 1 && (e.status.Pending? ==> e.attempts <= lim.maxRetries)
    && (match e.status
        case Pending => e.retryBuffer.Some? ==> e.retryBuffer.value == Capacity(e.len)
        case Ready(r) => r == Capacity(e.len) && e.retryBuffer.None?
        case Failed(_) => e.retryBuffer == Some(Capacity(e.len))
        case _ => e.retryBuffer.None?)
  }

  /** Every entry except the one in demand. */
  ghost function Others(m: map<nat, Entry>, demand: Option<nat>): map<nat, Entry> {
    if demand.Some? then m - {demand.value} else m
  }

  /** The counters are exact and within their limits, and everything but the file in demand
      together leaves the demand reserve free. */
  ghost predicate Accounted(entries: map<nat, Entry>, reserved: nat, active: nat, lim: Limits, demand: Option<nat>) {
    && (forall k :: k in entries ==> EntryOk(entries[k], lim))
    && reserved == Total(entries, HoldingWeight) <= lim.bytes
    && active == Total(entries, ActiveWeight) <= lim.active
    && Total(Others(entries, demand), HoldingWeight) <= lim.bytes - lim.reserve
  }

  /** Each worker and each read in flight holds the reservation of exactly one entry. */
  ghost predicate Claimed(entries: map<nat, Entry>, opening: map<nat, nat>, operations: map<nat, nat>) {
    && (forall k :: k in opening <==> k in entries && entries[k].status.Opening?)
    && (forall k :: k in operations <==> k in entries && entries[k].status.InFlight?)
    && (forall k :: k in opening ==> opening[k] == Capacity(entries[k].len))
    && (forall k :: k in operations ==> operations[k] == Capacity(entries[k].len))
  }

  // ----- the queues

  /** The queue item still stands for a pending file. */
  predicate Live(entries: map<nat, Entry>, i: Item) {
    i.index in entries && entries[i.index].generation == i.generation && entries[i.index].status.Pending?
  }

  /** Demanded items come first, newest first; then look-ahead items, oldest first. */
  predicate Before(a: Item, b: Item) {
    a.generation != b.generation
    && (if a.priority == b.priority
       then (if a.priority then a.generation > b.generation else a.generation < b.generation)
        else a.priority)
  }

  ghost predicate Ordered(q: seq<Item>) { forall i, j :: 0 <= i < j < |q| ==> Before(q[i], q[j]) }

  ghost predicate Queued(q: seq<Item>, index: nat, generation: nat) {
    exists i :: 0 <= i < |q| && q[i].index == index && q[i].generation == generation
  }

  ghost predicate QueueOk(entries: map<nat, Entry>, q: seq<Item>, c: nat, next: nat) {
    && Ordered(q)
    && (forall i :: 0 <= i < |q| ==> q[i].generation < next)
    && (forall i :: 0 <= i < |q| && Live(entries, q[i]) ==> ClassOf(entries[q[i].index].len) == c)
  }

  /** One ordered queue per size class; every pending file stands in the queue of its class. */
  ghost predicate QueuesOk(entries: map<nat, Entry>, queues: seq<seq<Item>>, next: nat) {
    && |queues| == CLASS_COUNT
    && (forall c :: 0 <= c < CLASS_COUNT ==> QueueOk(entries, queues[c], c, next))
    && (forall k :: k in entries ==> entries[k].generation < next && ClassOf(entries[k].len) < CLASS_COUNT)
    && (forall k :: k in entries && entries[k].status.Pending? ==>
          Queued(queues[ClassOf(entries[k].len)], k, entries[k].generation))
    && (forall j, k :: j in entries && k in entries && j != k ==> entries[j].generation != entries[k].generation)
  }

  /** A live item is a demanded one exactly when its file is the one in demand; only that file can
      be pending with a reservation kept from a failed attempt. */
  ghost predicate DemandOk(entries: map<nat, Entry>, queues: seq<seq<Item>>, demand: Option<nat>) {
    && (forall c, i :: 0 <= c < |queues| && 0 <= i < |queues[c]| && Live(entries, queues[c][i]) ==>
          (queues[c][i].priority <==> demand == Some(queues[c][i].index)))
    && (forall k :: k in entries && entries[k].status.Pending? && entries[k].retryBuffer.Some? ==> demand == Some(k))
  }

  ghost predicate Inv(s: State, lim: Limits) {
    && Accounted(s.entries, s.reservedBytes, s.activeFiles, lim, s.demand)
    && Claimed(s.entries, s.opening, s.operations)
    && QueuesOk(s.entries, s.queues, s.nextGeneration)
    && DemandOk(s.entries, s.queues, s.demand)
  }

  function Clean(entries: map<nat, Entry>, q: seq<Item>): seq<Item> {
    if q != [] && !Live(entries, q[0]) then Clean(entries, q[1..]) else q
  }

  lemma {:induction false} CleanSuffix(entries: map<nat, Entry>, q: seq<Item>)
    ensures var r := Clean(entries, q);
            && |r| <= |q| && r == q[|q| - |r|..]
            && (r != [] ==> Live(entries, r[0]))
            && (forall i :: 0 <= i < |q| - |r| ==> !Live(entries, q[i]))
  {
    hide Live;
    if q != [] && !Live(entries, q[0]) {
      CleanSuffix(entries, q[1..]);
      var r := Clean(entries, q);
      forall i | 0 <= i < |q| - |r| ensures !Live(entries, q[i]) {
        if i > 0 { assert q[i] == q[1..][i - 1]; }
      }
    }
  }

  /** Dropping dead items from the front keeps the queue in order and loses no live item. */
  lemma CleanKeeps(entries: map<nat, Entry>, q: seq<Item>, c: nat, next: nat)
    requires QueueOk(entries, q, c, next)
    ensures QueueOk(entries, Clean(entries, q), c, next)
    ensures forall i :: i in Clean(entries, q) ==> i in q
    ensures forall k :: k in entries && entries[k].status.Pending? && Queued(q, k, entries[k].generation) ==>
      Queued(Clean(entries, q), k, entries[k].generation)
  {
    CleanSuffix(entries, q);
    var r := Clean(entries, q);
    var d := |q| - |r|;
    assert forall i :: 0 <= i < |r| ==> r[i] == q[i + d];
    forall k | k in entries && entries[k].status.Pending? && Queued(q, k, entries[k].generation)
      ensures Queued(r, k, entries[k].generation)
    {
      var i :| 0 <= i < |q| && q[i].index == k && q[i].generation == entries[k].generation;
      assert Live(entries, q[i]);
      assert r[i - d] == q[i];
    }
  }

  // ----- the flat view: one list of pending files, no classes and no stale items

  /** May be started now: its budget is already held, or fits the limit that applies to it. */
  predicate Admissible(entries: map<nat, Entry>, i: Item, reserved: nat, lim: Limits)
    requires i.index in entries
  {
    entries[i.index].retryBuffer.Some?
    || reserved + Capacity(entries[i.index].len) <= (if i.priority then lim.bytes
       else SaturatingSub(lim.bytes, lim.reserve))
  }

  ghost predicate Candidate(entries: map<nat, Entry>, queues: seq<seq<Item>>, reserved: nat, lim: Limits, i: Item) {
    Live(entries, i) && Admissible(entries, i, reserved, lim) && exists c :: 0 <= c < |queues| && i in queues[c]
  }

  /** The pick of a scheduler with a single list: the newest admissible demanded file, else the
      oldest admissible look-ahead file, and nothing only when nothing is admissible. */
  ghost predicate FlatChoice(entries: map<nat, Entry>, queues: seq<seq<Item>>, reserved: nat, lim: Limits,
                             r: Option<Item>)
  {
    match r
    case None => forall i :: !Candidate(entries, queues, reserved, lim, i)
    case Some(best) =>
      && Candidate(entries, queues, reserved, lim, best)
      && (forall i :: Candidate(entries, queues, reserved, lim, i) && i != best ==> Before(best, i))
  }

  /** Every pending file that kept a reservation stands at the front of its queue. */
  ghost predicate RetainedInFront(entries: map<nat, Entry>, queues: seq<seq<Item>>) {
    forall c, i :: 0 <= c < |queues| && 0 <= i < |queues[c]| && Live(entries, queues[c][i])
                   && entries[queues[c][i].index].retryBuffer.Some? ==>
      Clean(entries, queues[c]) != [] && Clean(entries, queues[c])[0] == queues[c][i]
  }
}
