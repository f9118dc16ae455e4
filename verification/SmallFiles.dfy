/** The pool that reads small files ahead of an ordered consumer within a byte budget.  Each method
    is one section the code runs under the state lock. */
module SmallFiles {
  import opened Common
  import opened PoolState

  // ----- what a queue's front says about the rest of it

  /** In one class every file needs the same buffer, so the front decides for the whole queue. */
  lemma FrontDecides(entries: map<nat, Entry>, q: seq<Item>, c: nat, next: nat, reserved: nat, lim: Limits, i: Item)
    requires QueueOk(entries, q, c, next)
    requires i in q && Live(entries, i) && Admissible(entries, i, reserved, lim)
    requires Clean(entries, q) != [] && entries[i.index].retryBuffer.Some? ==> Clean(entries, q)[0] == i
    ensures Clean(entries, q) != []
    ensures var front := Clean(entries, q)[0];
            Live(entries, front) && Admissible(entries, front, reserved, lim) && (i == front || Before(front, i))
  {
    CleanSuffix(entries, q);
    var r := Clean(entries, q);
    hide Clean, ClassOf, BufferClass, Capacity;
    var j :| 0 <= j < |q| && q[j] == i;
    var d := |q| - |r|;
    assert r[0] == q[d];
    if j > d {
      assert Before(q[d], q[j]);
      assert Live(entries, q[d]);
      SameCapacity(entries[q[d].index].len, entries[i.index].len);
    }
  }

  lemma SameCapacity(a: nat, b: nat)
    requires ClassOf(a) == ClassOf(b)
    ensures Capacity(a) == Capacity(b)
  {
    BufferClassFromFacts(a, 0);
    BufferClassFromFacts(b, 0);
  }

  /** Files demanded one at a time: the only retained reservation is at the front of its queue. */
  lemma DemandInFront(entries: map<nat, Entry>, queues: seq<seq<Item>>, next: nat, demand: Option<nat>, c: nat, i: nat)
    requires QueuesOk(entries, queues, next) && DemandOk(entries, queues, demand)
    requires c < CLASS_COUNT && i < |queues[c]| && Live(entries, queues[c][i]) && queues[c][i].priority
    ensures Clean(entries, queues[c]) != [] && Clean(entries, queues[c])[0] == queues[c][i]
  {
    var q := queues[c];
    CleanSuffix(entries, q);
    var r := Clean(entries, q);
    var d := |q| - |r|;
    assert i >= d && r[0] == q[d];
    InOrder(q, d, i);
  }

  lemma InOrder(q: seq<Item>, d: nat, i: nat)
    requires Ordered(q)
    ensures d < i < |q| ==> Before(q[d], q[i])
  {
  }

  lemma RetainedFromDemand(entries: map<nat, Entry>, queues: seq<seq<Item>>, next: nat, demand: Option<nat>)
    requires QueuesOk(entries, queues, next) && DemandOk(entries, queues, demand)
    ensures RetainedInFront(entries, queues)
  {
    forall c, i | 0 <= c < |queues| && 0 <= i < |queues[c]| && Live(entries, queues[c][i])
                  && entries[queues[c][i].index].retryBuffer.Some?
      ensures Clean(entries, queues[c]) != [] && Clean(entries, queues[c])[0] == queues[c][i]
    {
      DemandInFront(entries, queues, next, demand, c, i);
    }
  }

  // ----- how single updates keep the invariant

  ghost function HeldBy(entries: map<nat, Entry>, x: nat): nat { if x in entries then Holding(entries[x]) else 0 }

  ghost function ActiveBy(entries: map<nat, Entry>, x: nat): nat { if x in entries then Active(entries[x]) else 0 }

  lemma OneHeld(entries: map<nat, Entry>, reserved: nat, active: nat, lim: Limits, demand: Option<nat>, x: nat)
    requires Accounted(entries, reserved, active, lim, demand)
    ensures HeldBy(entries, x) <= reserved && ActiveBy(entries, x) <= active
  {
    if x in entries {
      TotalRemove(entries, HoldingWeight, x);
      TotalRemove(entries, ActiveWeight, x);
    }
  }

  lemma TotalOfSet(m: map<nat, Entry>, w: (nat, Entry) -> nat, x: nat, e: Entry)
    ensures Total(m[x := e], w) == Total(m, w) - (if x in m then w(x, m[x]) else 0) + w(x, e)
  {
    TotalSet(m, w, x, e);
    if x in m {
      TotalRemove(m, w, x);
    } else {
      assert m - {x} == m;
    }
  }

  lemma OthersAtMost(m: map<nat, Entry>, demand: Option<nat>)
    ensures Total(Others(m, demand), HoldingWeight) <= Total(m, HoldingWeight)
  {
    if demand.Some? {
      if demand.value in m {
        TotalRemove(m, HoldingWeight, demand.value);
      } else {
        assert m - {demand.value} == m;
      }
    }
  }

  lemma OthersOfSet(m: map<nat, Entry>, demand: Option<nat>, x: nat, e: Entry)
    ensures demand == Some(x) ==>
      Total(Others(m[x := e], demand), HoldingWeight) == Total(Others(m, demand), HoldingWeight)
    ensures demand != Some(x) ==>
      Total(Others(m[x := e], demand), HoldingWeight) == Total(Others(m, demand), HoldingWeight) - HeldBy(m, x)
        + Holding(e)
  {
    if demand == Some(x) {
      assert m[x := e] - {x} == m - {x};
    } else {
      var o := Others(m, demand);
      assert Others(m[x := e], demand) == o[x := e];
      TotalOfSet(o, HoldingWeight, x, e);
      assert x in o <==> x in m;
    }
  }

  /** The counters stay exact when one entry is set, if they move by the change in that entry. */
  lemma AccountedSet(entries: map<nat, Entry>, reserved: nat, active: nat, lim: Limits, demand: Option<nat>,
                     x: nat, e: Entry, reserved': nat, active': nat, demand': Option<nat>)
    requires Accounted(entries, reserved, active, lim, demand) && EntryOk(e, lim)
    requires demand' == demand || (demand.None? && demand' == Some(x))
    requires reserved' == reserved - HeldBy(entries, x) + Holding(e) <= lim.bytes
    requires active' == active - ActiveBy(entries, x) + Active(e) <= lim.active
    requires demand' == Some(x) || Holding(e) <= HeldBy(entries, x) || reserved' + lim.reserve <= lim.bytes
    ensures Accounted(entries[x := e], reserved', active', lim, demand')
  {
    var m := entries[x := e];
    TotalOfSet(entries, HoldingWeight, x, e);
    TotalOfSet(entries, ActiveWeight, x, e);
    OthersOfSet(entries, demand', x, e);
    OthersAtMost(m, demand');
    OthersAtMost(entries, demand');
    assert HeldBy(entries, x) == if x in entries then HoldingWeight(x, entries[x]) else 0;
    assert ActiveBy(entries, x) == if x in entries then ActiveWeight(x, entries[x]) else 0;
    assert HoldingWeight(x, e) == Holding(e) && ActiveWeight(x, e) == Active(e);
    assert forall k :: k in m ==> EntryOk(m[k], lim);
    hide EntryOk, Holding, Active, Total, HeldBy, ActiveBy;
  }

  /** Removing an entry gives back exactly what it held. */
  lemma AccountedRemove(entries: map<nat, Entry>, reserved: nat, active: nat, lim: Limits, demand: Option<nat>,
                        x: nat, demand': Option<nat>)
    requires Accounted(entries, reserved, active, lim, demand) && x in entries
    requires demand' == demand || (demand == Some(x) && demand' == None)
    ensures Holding(entries[x]) <= reserved && Active(entries[x]) <= active
    ensures Accounted(entries - {x}, reserved - Holding(entries[x]), active - Active(entries[x]), lim, demand')
  {
    TotalRemove(entries, HoldingWeight, x);
    TotalRemove(entries, ActiveWeight, x);
    if demand'.Some? && demand'.value != x {
      var d := demand'.value;
      var o := entries - {d};
      assert entries - {x} - {d} == o - {x};
      TotalRemove(o, HoldingWeight, x);
    } else if demand'.Some? {
      assert entries - {x} - {x} == entries - {x};
    } else if demand.Some? {
      assert demand.value == x;
    }
  }

  ghost predicate DemandedElsewhere(entries: map<nat, Entry>, queues: seq<seq<Item>>, demand: Option<nat>, x: nat) {
    && (forall c, i ::
          0 <= c < |queues| && 0 <= i < |queues[c]| && Live(entries, queues[c][i]) && queues[c][i].index != x ==>
          (queues[c][i].priority <==> demand == Some(queues[c][i].index)))
    && (forall k :: k in entries && k != x && entries[k].status.Pending? && entries[k].retryBuffer.Some? ==>
       demand == Some(k))
  }

  function Pushed(q: seq<Item>, item: Item): seq<Item> { if item.priority then [item] + q else q + [item] }

  lemma PushedOrdered(q: seq<Item>, item: Item)
    requires Ordered(q) && forall i :: 0 <= i < |q| ==> q[i].generation < item.generation
    ensures Ordered(Pushed(q, item))
    ensures forall i :: i in Pushed(q, item) <==> i == item || i in q
  {
    var r := Pushed(q, item);
    var shift := if item.priority then 1 else 0;
    assert forall i :: 0 <= i < |q| ==> r[i + shift] == q[i];
    forall i, j | 0 <= i < j < |r| ensures Before(r[i], r[j]) {
      if i - shift >= 0 && j - shift < |q| {
        assert Before(q[i - shift], q[j - shift]);
      }
    }
  }

  lemma PushedQueued(q: seq<Item>, item: Item, k: nat, generation: nat)
    requires Queued(q, k, generation) || (item.index == k && item.generation == generation)
    ensures Queued(Pushed(q, item), k, generation)
  {
    var r := Pushed(q, item);
    if item.index == k && item.generation == generation {
      assert r[if item.priority then 0 else |q|] == item;
    } else {
      var i :| 0 <= i < |q| && q[i].index == k && q[i].generation == generation;
      assert r[if item.priority then i + 1 else i] == q[i];
    }
  }

  lemma PushedQueueOk(entries: map<nat, Entry>, q: seq<Item>, c: nat, next: nat, x: nat, e: Entry, priority: bool)
    requires QueueOk(entries, q, c, next) && e.generation == next && ClassOf(e.len) == c
    ensures QueueOk(entries[x := e], Pushed(q, Item(x, next, priority)), c, next + 1)
    ensures QueueOk(entries[x := e], q, c, next + 1)
  {
    var r := Pushed(q, Item(x, next, priority));
    PushedOrdered(q, Item(x, next, priority));
    forall i | 0 <= i < |r|
      ensures r[i].generation < next + 1
              && (Live(entries[x := e], r[i]) ==> ClassOf(entries[x := e][r[i].index].len) == c)
    {
      assert r[i] in r;
    }
  }

  lemma EnqueueKeepsDemand(entries: map<nat, Entry>, queues: seq<seq<Item>>, next: nat, x: nat, e: Entry,
                           priority: bool, demand: Option<nat>)
    requires QueuesOk(entries, queues, next) && DemandedElsewhere(entries, queues, demand, x)
    requires e.status.Pending? && e.generation == next && ClassOf(e.len) < CLASS_COUNT
    requires priority <==> demand == Some(x)
    requires e.retryBuffer.Some? ==> priority
    ensures var c := ClassOf(e.len);
            DemandOk(entries[x := e], queues[c := Pushed(queues[c], Item(x, next, priority))], demand)
  {
    var m, c := entries[x := e], ClassOf(e.len);
    var item := Item(x, next, priority);
    var qs := queues[c := Pushed(queues[c], item)];
    hide Pushed, Queued;
    forall b, i | 0 <= b < |qs| && 0 <= i < |qs[b]| && Live(m, qs[b][i])
      ensures qs[b][i].priority <==> demand == Some(qs[b][i].index)
    {
      assert QueueOk(entries, queues[b], b, next);
      PushedOrdered(queues[c], item);
      if qs[b][i] != item {
        assert qs[b][i] in qs[b] && qs[b][i] in queues[b];
        var j :| 0 <= j < |queues[b]| && queues[b][j] == qs[b][i];
        assert Live(entries, queues[b][j]);
      }
    }
  }

  /** Queueing a pending file, at the back as look-ahead or at the front because it is demanded. */
  lemma EnqueueKeeps(entries: map<nat, Entry>, queues: seq<seq<Item>>, next: nat, x: nat, e: Entry,
                     priority: bool, demand: Option<nat>)
    requires QueuesOk(entries, queues, next) && DemandedElsewhere(entries, queues, demand, x)
    requires e.status.Pending? && e.generation == next && ClassOf(e.len) < CLASS_COUNT
    requires priority <==> demand == Some(x)
    requires e.retryBuffer.Some? ==> priority
    ensures var c := ClassOf(e.len);
            var qs := queues[c := Pushed(queues[c], Item(x, next, priority))];
            QueuesOk(entries[x := e], qs, next + 1) && DemandOk(entries[x := e], qs, demand)
  {
    var m, c := entries[x := e], ClassOf(e.len);
    var item := Item(x, next, priority);
    var qs := queues[c := Pushed(queues[c], item)];
    hide Pushed, Queued;
    forall b | 0 <= b < CLASS_COUNT ensures QueueOk(m, qs[b], b, next + 1) {
      assert QueueOk(entries, queues[b], b, next);
      if b == c {
        PushedQueueOk(entries, queues[c], c, next, x, e, priority);
      }
    }
    forall k | k in m && m[k].status.Pending? ensures Queued(qs[ClassOf(m[k].len)], k, m[k].generation) {
      if k == x || ClassOf(m[k].len) == c {
        PushedQueued(queues[c], item, k, m[k].generation);
      }
    }
    EnqueueKeepsDemand(entries, queues, next, x, e, priority, demand);
  }

  /** An entry that is not pending afterwards leaves the queues in order. */
  lemma SettleKeeps(entries: map<nat, Entry>, queues: seq<seq<Item>>, next: nat, demand: Option<nat>, x: nat, e: Entry,
                    demand': Option<nat>)
    requires QueuesOk(entries, queues, next) && DemandOk(entries, queues, demand)
    requires x in entries && !e.status.Pending? && e.generation == entries[x].generation && e.len == entries[x].len
    requires demand' == demand || (demand.None? && demand' == Some(x))
    ensures QueuesOk(entries[x := e], queues, next) && DemandOk(entries[x := e], queues, demand')
  {
    var m := entries[x := e];
    assert forall i :: Live(m, i) ==> Live(entries, i) && i.index != x;
    forall b | 0 <= b < CLASS_COUNT ensures QueueOk(m, queues[b], b, next) {
      assert QueueOk(entries, queues[b], b, next);
    }
  }

  lemma RemoveKeeps(entries: map<nat, Entry>, queues: seq<seq<Item>>, next: nat, demand: Option<nat>, x: nat,
                    demand': Option<nat>)
    requires QueuesOk(entries, queues, next) && DemandOk(entries, queues, demand)
    requires x in entries && !entries[x].status.Pending?
    requires demand' == demand || (demand == Some(x) && demand' == None)
    ensures QueuesOk(entries - {x}, queues, next) && DemandOk(entries - {x}, queues, demand')
  {
    var m := entries - {x};
    assert forall i :: Live(m, i) ==> Live(entries, i) && i.index != x;
    forall b | 0 <= b < CLASS_COUNT ensures QueueOk(m, queues[b], b, next) {
      assert QueueOk(entries, queues[b], b, next);
    }
  }

  // ----- from one front per class to one flat list

  /** The comparison of the admission loop. */
  predicate Preferred(item: Item, selected: Option<Item>) {
    match selected
    case None => true
    case Some(current) =>
      if item.priority != current.priority then item.priority
      else if item.priority then item.generation > current.generation
      else item.generation < current.generation
  }

  function Considered(entries: map<nat, Entry>, q: seq<Item>, reserved: nat, lim: Limits,
                      selected: Option<Item>): Option<Item>
    requires q != [] ==> q[0].index in entries
  {
    if q != [] && Admissible(entries, q[0], reserved, lim) && Preferred(q[0], selected) then Some(q[0]) else selected
  }

  lemma CandidateSplit(entries: map<nat, Entry>, queues: seq<seq<Item>>, c: nat, reserved: nat, lim: Limits, i: Item)
    requires c < |queues|
    ensures Candidate(entries, queues[..c + 1], reserved, lim, i) <==>
      Candidate(entries, queues[..c], reserved, lim, i)
      || (Live(entries, i) && Admissible(entries, i, reserved, lim) && i in queues[c])
  {
    if Candidate(entries, queues[..c + 1], reserved, lim, i) {
      var b :| 0 <= b < |queues[..c + 1]| && i in queues[..c + 1][b];
      assert b < c ==> queues[..c][b] == queues[b];
    }
    if Candidate(entries, queues[..c], reserved, lim, i) {
      var b :| 0 <= b < |queues[..c]| && i in queues[..c][b];
      assert queues[..c + 1][b] == queues[b];
    }
    assert queues[..c + 1][c] == queues[c];
  }

  /** Live items of different classes stand for different files, so their generations differ. */
  lemma ClassesApart(entries: map<nat, Entry>, queues: seq<seq<Item>>, next: nat, c: nat, reserved: nat, lim: Limits,
                     i: Item, j: Item)
    requires QueuesOk(entries, queues, next) && c < CLASS_COUNT
    requires Candidate(entries, queues[..c], reserved, lim, i) && Live(entries, j) && j in queues[c]
    ensures i.generation != j.generation
  {
    var b :| 0 <= b < c && i in queues[..c][b];
    assert QueueOk(entries, queues[b], b, next) && QueueOk(entries, queues[c], c, next);
    assert ClassOf(entries[i.index].len) == b && ClassOf(entries[j.index].len) == c;
  }

  lemma NothingYet(entries: map<nat, Entry>, queues: seq<seq<Item>>, next: nat, reserved: nat, lim: Limits)
    requires QueuesOk(entries, queues, next)
    ensures |queues| == CLASS_COUNT && FlatChoice(entries, queues[..0], reserved, lim, None)
  {
  }

  /** Merging one class's best item into the best of the classes before it. */
  lemma FlatMerge(entries: map<nat, Entry>, queues: seq<seq<Item>>, c: nat, reserved: nat, lim: Limits,
                  selected: Option<Item>, front: seq<Item>)
    requires c < |queues| && FlatChoice(entries, queues[..c], reserved, lim, selected)
    requires front != [] ==> Live(entries, front[0]) && front[0] in queues[c]
    requires forall i, j :: Candidate(entries, queues[..c], reserved, lim, i) && Live(entries, j) && j in queues[c] ==>
      i.generation != j.generation
    requires forall i :: Live(entries, i) && Admissible(entries, i, reserved, lim) && i in queues[c] ==>
      front != [] && Admissible(entries, front[0], reserved, lim) && (i == front[0] || Before(front[0], i))
    ensures FlatChoice(entries, queues[..c + 1], reserved, lim, Considered(entries, front, reserved, lim, selected))
  {
    var r := Considered(entries, front, reserved, lim, selected);
    if r.Some? {
      CandidateSplit(entries, queues, c, reserved, lim, r.value);
      assert Candidate(entries, queues[..c + 1], reserved, lim, r.value);
    }
    var all := queues[..c + 1];
    forall i | Candidate(entries, all, reserved, lim, i) ensures r.Some? && (i == r.value || Before(r.value, i)) {
      CandidateSplit(entries, queues, c, reserved, lim, i);
      hide Candidate, Live, Admissible;
    }
    assert FlatChoice(entries, all, reserved, lim, r);
  }

  lemma FrontBest(entries: map<nat, Entry>, queues: seq<seq<Item>>, next: nat, c: nat, reserved: nat, lim: Limits)
    requires QueuesOk(entries, queues, next) && RetainedInFront(entries, queues) && c < CLASS_COUNT
    ensures var front := Clean(entries, queues[c]);
      forall i :: Live(entries, i) && Admissible(entries, i, reserved, lim) && i in queues[c] ==>
        front != [] && Live(entries, front[0]) && Admissible(entries, front[0], reserved, lim)
        && (i == front[0] || Before(front[0], i))
  {
    var q := queues[c];
    assert QueueOk(entries, q, c, next);
    forall i | Live(entries, i) && Admissible(entries, i, reserved, lim) && i in q
      ensures var front := Clean(entries, queues[c]);
              front != [] && Live(entries, front[0]) && Admissible(entries, front[0], reserved, lim)
              && (i == front[0] || Before(front[0], i))
    {
      var j :| 0 <= j < |q| && q[j] == i;
      assert Live(entries, queues[c][j]);
      assert entries[i.index].retryBuffer.Some? ==> Clean(entries, q) != [] && Clean(entries, q)[0] == i;
      hide *;
      FrontDecides(entries, q, c, next, reserved, lim, i);
    }
  }

  lemma FlatExtend(entries: map<nat, Entry>, queues: seq<seq<Item>>, next: nat, c: nat, reserved: nat, lim: Limits,
                   selected: Option<Item>)
    requires QueuesOk(entries, queues, next) && RetainedInFront(entries, queues) && c < CLASS_COUNT
    requires FlatChoice(entries, queues[..c], reserved, lim, selected)
    ensures var front := Clean(entries, queues[c]);
            (front != [] ==> Live(entries, front[0]))
            && FlatChoice(entries, queues[..c + 1], reserved, lim, Considered(entries, front, reserved, lim, selected))
  {
    var front := Clean(entries, queues[c]);
    CleanSuffix(entries, queues[c]);
    assert front != [] ==> front[0] in queues[c];
    FrontBest(entries, queues, next, c, reserved, lim);
    forall i, j | Candidate(entries, queues[..c], reserved, lim, i) && Live(entries, j) && j in queues[c]
      ensures i.generation != j.generation
    {
      ClassesApart(entries, queues, next, c, reserved, lim, i, j);
    }
    hide *;
    FlatMerge(entries, queues, c, reserved, lim, selected, front);
  }

  /** The buffer of a queue's class is the buffer of the file at its front. */
  lemma FrontCapacity(entries: map<nat, Entry>, queues: seq<seq<Item>>, next: nat, c: nat, lim: Limits)
    requires QueuesOk(entries, queues, next) && c < CLASS_COUNT
    requires forall k :: k in entries ==> EntryOk(entries[k], lim)
    ensures var q := Clean(entries, queues[c]);
            q != [] ==> Live(entries, q[0]) && ClassOf(entries[q[0].index].len) == c
                        && QueueCapacity(c) == Capacity(entries[q[0].index].len)
                        && (entries[q[0].index].retryBuffer.Some? ==>
                           entries[q[0].index].retryBuffer.value == QueueCapacity(c))
  {
    CleanSuffix(entries, queues[c]);
    var q := Clean(entries, queues[c]);
    if q != [] {
      assert QueueOk(entries, queues[c], c, next);
      assert q[0] == queues[c][|queues[c]| - |q|];
      CapacityFits(entries[q[0].index].len);
    }
  }

  /** What admission leaves behind: cleaned queues, the admitted file's item taken off its front. */
  ghost predicate TakenFrom(entries: map<nat, Entry>, before: seq<seq<Item>>, after: seq<seq<Item>>,
                            choice: Option<Item>)
  {
    && |before| == |after| == CLASS_COUNT
    && (choice.Some? ==>
          && choice.value.index in entries && ClassOf(entries[choice.value.index].len) < CLASS_COUNT
          && var q := Clean(entries, before[ClassOf(entries[choice.value.index].len)]); q != [] && q[0] == choice.value)
    && (forall c :: 0 <= c < CLASS_COUNT ==>
          after[c] == var q := Clean(entries, before[c]);
                      if choice.Some? && c == ClassOf(entries[choice.value.index].len) && q != [] then q[1..] else q)
  }

  ghost predicate StatusOnly(before: map<nat, Entry>, after: map<nat, Entry>, choice: Option<Item>) {
    match choice
    case None => before == after
    case Some(i) =>
      && i.index in before && i.index in after && after == before[i.index := after[i.index]]
      && !after[i.index].status.Pending?
      && after[i.index].generation == before[i.index].generation && after[i.index].len == before[i.index].len
  }

  lemma TakenQueue(entries: map<nat, Entry>, m: map<nat, Entry>, q: seq<Item>, r: seq<Item>, c: nat, next: nat,
                   choice: Option<Item>)
    requires StatusOnly(entries, m, choice) && QueueOk(entries, q, c, next)
    requires r == Clean(entries, q)
             || (choice.Some? && Clean(entries, q) != [] && Clean(entries, q)[0] == choice.value
                && r == Clean(entries, q)[1..])
    ensures QueueOk(m, r, c, next) && forall i :: i in r ==> i in q
    ensures forall k :: k in m && m[k].status.Pending? && Queued(q, k, m[k].generation) ==>
      Queued(r, k, m[k].generation)
  {
    CleanKeeps(entries, q, c, next);
    var f := Clean(entries, q);
    assert forall i :: Live(m, i) ==> Live(entries, i);
    forall k | k in m && m[k].status.Pending? && Queued(q, k, m[k].generation) ensures Queued(r, k, m[k].generation) {
      assert Queued(f, k, entries[k].generation);
      var i :| 0 <= i < |f| && f[i].index == k && f[i].generation == entries[k].generation;
      if r != f {
        assert i > 0 && r[i - 1] == f[i];
      }
    }
  }

  lemma AfterTakeDemand(entries: map<nat, Entry>, m: map<nat, Entry>, before: seq<seq<Item>>, after: seq<seq<Item>>,
                        demand: Option<nat>)
    requires DemandOk(entries, before, demand) && |before| == |after|
    requires forall c :: 0 <= c < |after| ==> forall i :: i in after[c] ==> i in before[c]
    requires forall k :: k in m && m[k].status.Pending? ==> k in entries && entries[k] == m[k]
    ensures DemandOk(m, after, demand)
  {
    forall c, i | 0 <= c < |after| && 0 <= i < |after[c]| && Live(m, after[c][i])
      ensures after[c][i].priority <==> demand == Some(after[c][i].index)
    {
      assert after[c][i] in before[c];
      var j :| 0 <= j < |before[c]| && before[c][j] == after[c][i];
      assert Live(entries, before[c][j]);
    }
  }

  lemma TakenAt(entries: map<nat, Entry>, m: map<nat, Entry>, before: seq<seq<Item>>, after: seq<seq<Item>>, next: nat,
                choice: Option<Item>, c: nat)
    requires QueuesOk(entries, before, next) && c < CLASS_COUNT
    requires TakenFrom(entries, before, after, choice) && StatusOnly(entries, m, choice)
    ensures QueueOk(m, after[c], c, next) && forall i :: i in after[c] ==> i in before[c]
    ensures forall k :: k in m && m[k].status.Pending? && Queued(before[c], k, m[k].generation) ==>
      Queued(after[c], k, m[k].generation)
  {
    assert QueueOk(entries, before[c], c, next);
    hide QueuesOk, Queued, QueueOk, StatusOnly, Live, Clean, ClassOf;
    TakenQueue(entries, m, before[c], after[c], c, next, choice);
  }

  lemma QueuesFrom(entries: map<nat, Entry>, m: map<nat, Entry>, before: seq<seq<Item>>, after: seq<seq<Item>>,
                   next: nat)
    requires QueuesOk(entries, before, next) && |after| == CLASS_COUNT
    requires forall k :: k in m ==>
      k in entries && m[k].generation == entries[k].generation && m[k].len == entries[k].len
                                    && (m[k].status.Pending? ==> entries[k].status.Pending?)
    requires forall c :: 0 <= c < CLASS_COUNT ==> QueueOk(m, after[c], c, next)
    requires forall c :: 0 <= c < CLASS_COUNT ==>
      forall k :: k in m && m[k].status.Pending? && Queued(before[c], k, m[k].generation) ==>
        Queued(after[c], k, m[k].generation)
    ensures QueuesOk(m, after, next)
  {
    hide QueueOk, Queued, ClassOf;
  }

  lemma AfterTake(entries: map<nat, Entry>, m: map<nat, Entry>, before: seq<seq<Item>>, after: seq<seq<Item>>,
                  next: nat, demand: Option<nat>, choice: Option<Item>)
    requires QueuesOk(entries, before, next) && DemandOk(entries, before, demand)
    requires TakenFrom(entries, before, after, choice) && StatusOnly(entries, m, choice)
    ensures QueuesOk(m, after, next) && DemandOk(m, after, demand)
  {
    forall c | 0 <= c < CLASS_COUNT
      ensures QueueOk(m, after[c], c, next) && (forall i :: i in after[c] ==> i in before[c])
      ensures forall k :: k in m && m[k].status.Pending? && Queued(before[c], k, m[k].generation) ==>
        Queued(after[c], k, m[k].generation)
    {
      hide *;
      TakenAt(entries, m, before, after, next, choice, c);
    }
    hide TakenFrom, QueueOk, Queued, Clean, Live, ClassOf;
    assert forall k :: k in m && m[k].status.Pending? ==> k in entries && entries[k] == m[k];
    QueuesFrom(entries, m, before, after, next);
    hide QueuesOk, StatusOnly;
    AfterTakeDemand(entries, m, before, after, demand);
  }

  /** While the consumer waits for `x`, admission picks `x` and nothing else: the demand reserve and
      the reservation kept across retries always leave room for it. */
  lemma NoDemandDeadlock(s: State, lim: Limits, x: nat, choice: Option<Item>)
    requires Inv(s, lim) && s.demand == Some(x) && x in s.entries && s.entries[x].status.Pending?
    requires FlatChoice(s.entries, s.queues, s.reservedBytes, lim, choice)
    ensures choice.Some? && choice.value.index == x
  {
    var c := ClassOf(s.entries[x].len);
    assert Queued(s.queues[c], x, s.entries[x].generation);
    var i :| 0 <= i < |s.queues[c]| && s.queues[c][i].index == x
      && s.queues[c][i].generation == s.entries[x].generation;
    var item := s.queues[c][i];
    assert Live(s.entries, item) && item.priority;
    if s.entries[x].retryBuffer.None? {
      TotalRemove(s.entries, HoldingWeight, x);
      assert HoldingWeight(x, s.entries[x]) == 0;
    }
    assert Candidate(s.entries, s.queues, s.reservedBytes, lim, item);
    var best := choice.value;
    var b :| 0 <= b < |s.queues| && best in s.queues[b];
    var j :| 0 <= j < |s.queues[b]| && s.queues[b][j] == best;
    assert best == item || Before(best, item);
    assert Live(s.entries, s.queues[b][j]);
  }

  /** The file can be started now: it kept its reservation from a failed attempt, or its buffer fits into what is
      left, and unless it is the file in demand the demand reserve stays free beside it. */
  predicate Fits(s: State, lim: Limits, k: nat)
    requires k in s.entries
  {
    s.entries[k].retryBuffer.Some?
    || s.reservedBytes + Capacity(s.entries[k].len) + (if s.demand == Some(k) then 0 else lim.reserve) <= lim.bytes
  }

  /** The pick told by the files alone: nothing only when no pending file fits; the file in demand if it fits,
      otherwise the one that was queued first of those that fit. */
  ghost predicate RightPick(s: State, lim: Limits, picked: Option<nat>) {
    match picked
    case None => forall k :: k in s.entries && s.entries[k].status.Pending? ==> !Fits(s, lim, k)
    case Some(x) =>
      && x in s.entries && s.entries[x].status.Pending? && Fits(s, lim, x)
      && (forall k :: k in s.entries && s.entries[k].status.Pending? && k != x && Fits(s, lim, k) ==>
         s.demand == Some(x) || (s.demand != Some(k) && s.entries[x].generation < s.entries[k].generation))
  }

  /** A pending file's item in its queue; it can be picked exactly when the file fits. */
  lemma PendingItem(s: State, lim: Limits, k: nat) returns (item: Item)
    requires QueuesOk(s.entries, s.queues, s.nextGeneration) && DemandOk(s.entries, s.queues, s.demand)
    requires k in s.entries && s.entries[k].status.Pending? && lim.reserve <= lim.bytes
    ensures item.index == k && item.generation == s.entries[k].generation && (item.priority <==> s.demand == Some(k))
    ensures Candidate(s.entries, s.queues, s.reservedBytes, lim, item) <==> Fits(s, lim, k)
  {
    var c := ClassOf(s.entries[k].len);
    assert Queued(s.queues[c], k, s.entries[k].generation);
    var i :| 0 <= i < |s.queues[c]| && s.queues[c][i].index == k
      && s.queues[c][i].generation == s.entries[k].generation;
    item := s.queues[c][i];
    assert Live(s.entries, s.queues[c][i]);
    hide Capacity;
  }

  lemma PickIsRight(s: State, lim: Limits, choice: Option<Item>)
    requires QueuesOk(s.entries, s.queues, s.nextGeneration) && DemandOk(s.entries, s.queues, s.demand)
    requires lim.reserve <= lim.bytes && FlatChoice(s.entries, s.queues, s.reservedBytes, lim, choice)
    ensures RightPick(s, lim, if choice.None? then None else Some(choice.value.index))
  {
    hide QueuesOk, DemandOk, Fits, Admissible;
    if choice.Some? {
      var item := PendingItem(s, lim, choice.value.index);
      SameItem(s, item, choice.value);
      forall k | k in s.entries && s.entries[k].status.Pending? && k != choice.value.index && Fits(s, lim, k)
        ensures s.demand == Some(choice.value.index)
                || (s.demand != Some(k) && s.entries[choice.value.index].generation < s.entries[k].generation)
      {
        var other := PendingItem(s, lim, k);
      }
    } else {
      forall k | k in s.entries && s.entries[k].status.Pending? ensures !Fits(s, lim, k) {
        var item := PendingItem(s, lim, k);
      }
    }
  }

  lemma RightlyPicked(s: State, lim: Limits, choice: Option<Item>)
    requires Inv(s, lim) && FlatChoice(s.entries, s.queues, s.reservedBytes, lim, choice)
    ensures RightPick(s, lim, if choice.None? then None else Some(choice.value.index))
  {
    hide FlatChoice, RightPick, QueuesOk, DemandOk;
    PickIsRight(s, lim, choice);
  }

  lemma SameItem(s: State, a: Item, b: Item)
    requires DemandOk(s.entries, s.queues, s.demand) && Live(s.entries, b)
    requires exists c :: 0 <= c < |s.queues| && b in s.queues[c]
    requires a.index == b.index && a.generation == s.entries[a.index].generation
             && (a.priority <==> s.demand == Some(a.index))
    ensures a == b
  {
    var c :| 0 <= c < |s.queues| && b in s.queues[c];
    var i :| 0 <= i < |s.queues[c]| && s.queues[c][i] == b;
    assert Live(s.entries, s.queues[c][i]);
  }

  /** A waiting consumer never waits for nothing: its file is ready or settled, or a read in
      progress will settle it, or a worker can start it now, or reads in progress fill every place. */
  lemma NeverStuck(s: State, lim: Limits, x: nat)
    requires Inv(s, lim) && s.demand == Some(x) && x in s.entries && !s.entries[x].status.Borrowed? && lim.active > 0
    ensures s.entries[x].status.Ready? || s.entries[x].status.Failed?
            || x in s.opening || x in s.operations
            || (s.entries[x].status.Pending? && s.activeFiles < lim.active
                && forall choice :: FlatChoice(s.entries, s.queues, s.reservedBytes, lim, choice) ==>
                   choice.Some? && choice.value.index == x)
            || s.opening != map[] || s.operations != map[]
  {
    if s.entries[x].status.Pending? {
      if s.activeFiles < lim.active {
        forall choice | FlatChoice(s.entries, s.queues, s.reservedBytes, lim, choice)
          ensures choice.Some? && choice.value.index == x
        {
          NoDemandDeadlock(s, lim, x, choice);
        }
      } else {
        TotalPositive(s.entries, ActiveWeight);
        var k :| k in s.entries && ActiveWeight(k, s.entries[k]) > 0;
        assert k in s.opening || k in s.operations;
      }
    }
  }

  lemma AdmitAccounted(s: State, lim: Limits, choice: Item, e: Entry, reserved: nat, active: nat)
    requires Inv(s, lim) && lim.reserve <= lim.bytes && s.activeFiles < lim.active
    requires Candidate(s.entries, s.queues, s.reservedBytes, lim, choice)
    requires e == s.entries[choice.index].(status := Opening, attempts := s.entries[choice.index].attempts + 1,
                                           retryBuffer := None)
    requires active == s.activeFiles + 1
    requires reserved == s.reservedBytes + (if s.entries[choice.index].retryBuffer.Some? then 0 else Capacity(e.len))
    ensures Accounted(s.entries[choice.index := e], reserved, active, lim, s.demand)
  {
    var x := choice.index;
    var c :| 0 <= c < |s.queues| && choice in s.queues[c];
    var i :| 0 <= i < |s.queues[c]| && s.queues[c][i] == choice;
    assert Live(s.entries, s.queues[c][i]);
    assert choice.priority <==> s.demand == Some(x);
    OneHeld(s.entries, s.reservedBytes, s.activeFiles, lim, s.demand, x);
    assert Holding(e) == Capacity(e.len) && Active(e) == 1 && EntryOk(e, lim);
    AccountedSet(s.entries, s.reservedBytes, s.activeFiles, lim, s.demand, x, e, reserved, active, s.demand);
  }

  ghost function Admitted(s: State, queues: seq<seq<Item>>, x: nat): State
    requires x in s.entries
  {
    var e := s.entries[x];
    s.(entries := s.entries[x := e.(status := Opening, attempts := e.attempts + 1, retryBuffer := None)],
       queues := queues, activeFiles := s.activeFiles + 1,
       reservedBytes := s.reservedBytes + (if e.retryBuffer.Some? then 0 else Capacity(e.len)),
       opening := s.opening[x := Capacity(e.len)])
  }

  lemma AdmitClaimed(entries: map<nat, Entry>, opening: map<nat, nat>, operations: map<nat, nat>, x: nat, e: Entry)
    requires Claimed(entries, opening, operations) && x in entries && entries[x].status.Pending?
    requires e.status.Opening? && e.len == entries[x].len
    ensures Claimed(entries[x := e], opening[x := Capacity(e.len)], operations)
  {
  }

  lemma AdmitKeeps(s: State, lim: Limits, queues: seq<seq<Item>>, choice: Item)
    requires Inv(s, lim) && lim.reserve <= lim.bytes && s.activeFiles < lim.active
    requires FlatChoice(s.entries, s.queues, s.reservedBytes, lim, Some(choice))
    requires TakenFrom(s.entries, s.queues, queues, Some(choice))
    ensures choice.index in s.entries && Inv(Admitted(s, queues, choice.index), lim)
  {
    assert Candidate(s.entries, s.queues, s.reservedBytes, lim, choice) && Live(s.entries, choice);
    hide Accounted, QueuesOk, DemandOk, TakenFrom, Candidate, Claimed, Live;
    var t := Admitted(s, queues, choice.index);
    AdmitAccounted(s, lim, choice, t.entries[choice.index], t.reservedBytes, t.activeFiles);
    AfterTake(s.entries, t.entries, s.queues, queues, s.nextGeneration, s.demand, Some(choice));
    AdmitClaimed(s.entries, s.opening, s.operations, choice.index, t.entries[choice.index]);
  }

  lemma CanTake(s: State, lim: Limits)
    requires Inv(s, lim)
    ensures QueuesOk(s.entries, s.queues, s.nextGeneration) && RetainedInFront(s.entries, s.queues)
    ensures forall k :: k in s.entries ==> EntryOk(s.entries[k], lim)
  {
    RetainedFromDemand(s.entries, s.queues, s.nextGeneration, s.demand);
  }

  lemma EntriesOk(s: State, lim: Limits)
    requires Inv(s, lim)
    ensures forall k :: k in s.entries ==> EntryOk(s.entries[k], lim)
  {
  }

  lemma IdleKeeps(s: State, lim: Limits, queues: seq<seq<Item>>)
    requires Inv(s, lim) && TakenFrom(s.entries, s.queues, queues, None)
    ensures Inv(s.(queues := queues), lim)
  {
    hide Accounted, QueuesOk, DemandOk, TakenFrom, Claimed;
    AfterTake(s.entries, s.entries, s.queues, queues, s.nextGeneration, s.demand, None);
  }

  lemma WithinLimits(s: State, lim: Limits)
    requires Inv(s, lim)
    ensures s.reservedBytes <= lim.bytes && s.activeFiles <= lim.active && |s.queues| == CLASS_COUNT
  {
  }

  lemma StillDemanded(entries: map<nat, Entry>, queues: seq<seq<Item>>, demand: Option<nat>, demand': Option<nat>,
                      x: nat)
    requires DemandOk(entries, queues, demand)
    requires demand' == demand || (demand.None? && demand' == Some(x))
    ensures DemandedElsewhere(entries, queues, demand', x)
  {
    hide Live;
  }

  /** Moving one file on, without giving up or taking budget, keeps the invariant. */
  lemma MoveKeeps(s: State, lim: Limits, x: nat, e: Entry, t: State)
    requires Inv(s, lim) && x in s.entries
    requires !e.status.Pending? && e.generation == s.entries[x].generation && e.len == s.entries[x].len
             && EntryOk(e, lim)
    requires Holding(e) == Holding(s.entries[x]) && Active(e) <= Active(s.entries[x])
    requires t.entries == s.entries[x := e] && t.queues == s.queues && t.nextGeneration == s.nextGeneration
    requires t.demand == s.demand && t.reservedBytes == s.reservedBytes
    requires t.activeFiles == s.activeFiles - Active(s.entries[x]) + Active(e)
    requires t.opening == (if e.status.Opening? then s.opening else s.opening - {x})
    requires t.operations == (if e.status.InFlight? then s.operations[x := Capacity(e.len)] else s.operations - {x})
    requires e.status.Opening? ==> s.entries[x].status.Opening?
    ensures Inv(t, lim)
  {
    WithinLimits(s, lim);
    hide QueuesOk, DemandOk, Accounted, EntryOk, Claimed, Holding, Active, Capacity;
    SettleKeeps(s.entries, s.queues, s.nextGeneration, s.demand, x, e, s.demand);
    AccountedSet(s.entries, s.reservedBytes, s.activeFiles, lim, s.demand, x, e, t.reservedBytes, t.activeFiles,
                 s.demand);
    MoveClaimed(s.entries, s.opening, s.operations, x, e, t.opening, t.operations);
  }

  lemma MoveClaimed(entries: map<nat, Entry>, opening: map<nat, nat>, operations: map<nat, nat>, x: nat, e: Entry,
                    opening': map<nat, nat>, operations': map<nat, nat>)
    requires Claimed(entries, opening, operations) && x in entries && e.len == entries[x].len
    requires opening' == if e.status.Opening? then opening else opening - {x}
    requires operations' == if e.status.InFlight? then operations[x := Capacity(e.len)] else operations - {x}
    requires e.status.Opening? ==> entries[x].status.Opening?
    ensures Claimed(entries[x := e], opening', operations')
  {
    hide Capacity, BufferClass;
  }

  /** Dropping a file that is not pending gives its budget and place back exactly. */
  lemma DropKeeps(s: State, lim: Limits, x: nat, demand: Option<nat>)
    requires Inv(s, lim) && x in s.entries && !s.entries[x].status.Pending?
    requires demand == s.demand || (s.demand == Some(x) && demand == None)
    ensures Holding(s.entries[x]) <= s.reservedBytes && Active(s.entries[x]) <= s.activeFiles
    ensures Inv(s.(entries := s.entries - {x}, reservedBytes := s.reservedBytes - Holding(s.entries[x]),
                   activeFiles := s.activeFiles - Active(s.entries[x]),
                   opening := s.opening - {x}, operations := s.operations - {x}, demand := demand), lim)
  {
    DropClaimed(s.entries, s.opening, s.operations, x);
    hide QueuesOk, DemandOk, Accounted, Claimed, Holding, Active;
    RemoveKeeps(s.entries, s.queues, s.nextGeneration, s.demand, x, demand);
    AccountedRemove(s.entries, s.reservedBytes, s.activeFiles, lim, s.demand, x, demand);
  }

  lemma DropClaimed(entries: map<nat, Entry>, opening: map<nat, nat>, operations: map<nat, nat>, x: nat)
    requires Claimed(entries, opening, operations)
    ensures Claimed(entries - {x}, opening - {x}, operations - {x})
  {
    hide Capacity, BufferClass;
  }

  /** Making a file pending, new, demanded, or retried with what it holds, keeps the invariant. */
  lemma PendKeeps(s: State, lim: Limits, x: nat, e: Entry, priority: bool, demand: Option<nat>)
    requires Inv(s, lim) && EntryOk(e, lim) && e.status.Pending? && e.generation == s.nextGeneration
    requires x in s.entries ==> Holding(e) == Holding(s.entries[x]) && Active(s.entries[x]) == 0
    requires x !in s.entries ==> Holding(e) == 0
    requires demand == s.demand || (s.demand.None? && demand == Some(x))
    requires priority <==> demand == Some(x)
    requires e.retryBuffer.Some? ==> priority
    ensures ClassOf(e.len) < |s.queues|
    ensures Inv(s.(entries := s.entries[x := e], nextGeneration := s.nextGeneration + 1, demand := demand,
                   queues := s.queues[ClassOf(e.len) :=
                     Pushed(s.queues[ClassOf(e.len)], Item(x, s.nextGeneration, priority))]), lim)
  {
    hide QueuesOk, DemandOk, Accounted, Claimed, Holding, Active, DemandedElsewhere, EntryOk, Pushed, ClassOf, Capacity,
         BufferClass, Total, Others;
    PendingFits(s, lim, e);
    WithinLimits(s, lim);
    StillDemanded(s.entries, s.queues, s.demand, demand, x);
    PendClaimed(s.entries, s.opening, s.operations, x, e);
    AccountedSet(s.entries, s.reservedBytes, s.activeFiles, lim, s.demand, x, e, s.reservedBytes, s.activeFiles,
                 demand);
    EnqueueKeeps(s.entries, s.queues, s.nextGeneration, x, e, priority, demand);
  }

  lemma PendingFits(s: State, lim: Limits, e: Entry)
    requires Inv(s, lim) && EntryOk(e, lim) && e.status.Pending?
    ensures Active(e) == 0 && BufferClass(e.len).Some? && ClassOf(e.len) < |s.queues| && ClassOf(e.len) < CLASS_COUNT
    ensures Capacity(e.len) <= lim.reserve
  {
    CapacityFits(e.len);
  }

  lemma PendClaimed(entries: map<nat, Entry>, opening: map<nat, nat>, operations: map<nat, nat>, x: nat, e: Entry)
    requires Claimed(entries, opening, operations) && e.status.Pending?
    requires x in entries ==> Active(entries[x]) == 0
    ensures Claimed(entries[x := e], opening, operations)
  {
    hide Capacity, BufferClass;
  }

  lemma DemandKeeps(s: State, lim: Limits, x: nat)
    requires Inv(s, lim) && x in s.entries && !s.entries[x].status.Pending?
    requires s.demand.None? || s.demand == Some(x)
    ensures Inv(s.(demand := Some(x)), lim)
  {
    var e := s.entries[x];
    assert s.entries[x := e] == s.entries;
    WithinLimits(s, lim);
    EntriesOk(s, lim);
    hide QueuesOk, DemandOk, Accounted, Claimed, Holding, Active;
    SettleKeeps(s.entries, s.queues, s.nextGeneration, s.demand, x, e, Some(x));
    AccountedSet(s.entries, s.reservedBytes, s.activeFiles, lim, s.demand, x, e, s.reservedBytes, s.activeFiles,
                 Some(x));
  }

  /** A worker's or a read's reservation is the one its file holds, and it is counted. */
  lemma ClaimFacts(s: State, lim: Limits, x: nat)
    requires Inv(s, lim) && (x in s.opening || x in s.operations)
    ensures x in s.entries && EntryOk(s.entries[x], lim) && s.activeFiles >= 1
            && s.reservedBytes >= Capacity(s.entries[x].len)
    ensures x in s.opening ==>
      x !in s.operations && s.entries[x].status.Opening? && s.opening[x] == Capacity(s.entries[x].len)
    ensures x in s.operations ==>
      x !in s.opening && s.entries[x].status.InFlight? && s.operations[x] == Capacity(s.entries[x].len)
  {
    OneHeld(s.entries, s.reservedBytes, s.activeFiles, lim, s.demand, x);
  }

  lemma IdleClaims(s: State, lim: Limits, x: nat)
    requires Inv(s, lim) && x in s.entries && !s.entries[x].status.Opening? && !s.entries[x].status.InFlight?
    ensures x !in s.opening && x !in s.operations && s.opening - {x} == s.opening && s.operations - {x} == s.operations
    ensures Holding(s.entries[x]) <= s.reservedBytes
  {
    OneHeld(s.entries, s.reservedBytes, s.activeFiles, lim, s.demand, x);
  }

  // ----- the pool

  ghost predicate Requeued(before: seq<seq<Item>>, after: seq<seq<Item>>, class_: nat, item: Item) {
    class_ < |before| && after == before[class_ := Pushed(before[class_], item)]
  }

  /** What the constructor accepts: the demand reserve is the buffer of the largest small file. */
  predicate ConfigOk(workers: nat, active: nat, bytes: nat, threshold: nat, batch: nat) {
    && BufferClass(threshold).Some?
    && workers > 0 && active > 0 && bytes >= 64 * 1024 && bytes >= Capacity(threshold)
    && 1 <= batch <= 128
  }

  datatype Taken =
    | TookFile(reserved: nat)
    | Interrupted
    | GaveUp
    | RetryAfter(attempts: nat)
    | NotQueued
    | KeepWaiting

  class SmallFilePool {
    const limits: Limits
    const threshold: nat
    var entries: map<nat, Entry>
    var queues: seq<seq<Item>>
    var nextGeneration: nat
    var activeFiles: nat
    var reservedBytes: nat
    var opening: map<nat, nat>
    var operations: map<nat, nat>
    var isShutdown: bool
    var isFatal: bool
    ghost var demand: Option<nat>

    ghost function Snapshot(): State
      reads this
    {
      State(entries, queues, nextGeneration, activeFiles, reservedBytes, opening, operations, demand)
    }

    ghost predicate Valid()
      reads this
    {
      && Inv(Snapshot(), limits)
      && ConfigOk(1, limits.active, limits.bytes, threshold, 1) && limits.reserve == Capacity(threshold)
    }

    constructor (workers: nat, active: nat, bytes: nat, smallThreshold: nat, batch: nat, maxRetries: nat)
      requires ConfigOk(workers, active, bytes, smallThreshold, batch)
      ensures Valid() && entries == map[] && demand == None && !isShutdown && !isFatal
      ensures limits == Limits(active, bytes, Capacity(smallThreshold), maxRetries) && threshold == smallThreshold
    {
      limits := Limits(active, bytes, Capacity(smallThreshold), maxRetries);
      threshold := smallThreshold;
      entries := map[];
      queues := [[], [], [], [], [], [], [], []];
      nextGeneration := 0;
      activeFiles := 0;
      reservedBytes := 0;
      opening := map[];
      operations := map[];
      isShutdown := false;
      isFatal := false;
      demand := None;
    }

    method EnqueueIndex(index: nat, class_: nat, priority: bool)
      requires class_ < |queues|
      modifies this`entries, this`queues, this`nextGeneration
      ensures nextGeneration == old(nextGeneration) + 1
      ensures entries == if index in old(entries)
                         then old(entries)[index := old(entries)[index].(generation := old(nextGeneration))]
                           else old(entries)
      ensures queues == old(queues)[class_ := Pushed(old(queues)[class_], Item(index, old(nextGeneration), priority))]
    {
      var generation := nextGeneration;
      nextGeneration := nextGeneration + 1;
      if index in entries {
        entries := entries[index := entries[index].(generation := generation)];
      }
      var item := Item(index, generation, priority);
      if priority {
        queues := queues[class_ := [item] + queues[class_]];
      } else {
        queues := queues[class_ := queues[class_] + [item]];
      }
    }

    method CleanQueueFront(class_: nat) returns (front: Option<Item>)
      requires class_ < |queues|
      modifies this`queues
      ensures queues == old(queues)[class_ := Clean(entries, old(queues)[class_])]
      ensures front == if queues[class_] == [] then None else Some(queues[class_][0])
    {
      while queues[class_] != [] && !Live(entries, queues[class_][0])
        invariant |queues| == |old(queues)|
        invariant queues == old(queues)[class_ := queues[class_]]
        invariant Clean(entries, queues[class_]) == Clean(entries, old(queues)[class_])
        decreases |queues[class_]|
      {
        queues := queues[class_ := queues[class_][1..]];
      }
      front := if queues[class_] == [] then None else Some(queues[class_][0]);
    }

    /** The admission policy over the bucketed queues picks what a single flat list would pick. */
    method TakeNextPending() returns (taken: Option<(nat, nat)>, ghost choice: Option<Item>)
      requires QueuesOk(entries, queues, nextGeneration) && RetainedInFront(entries, queues)
      requires forall k :: k in entries ==> EntryOk(entries[k], limits)
      modifies this`queues
      ensures FlatChoice(entries, old(queues), reservedBytes, limits, choice)
      ensures taken == if choice.None? then None
              else Some((choice.value.index, Capacity(entries[choice.value.index].len)))
      ensures TakenFrom(entries, old(queues), queues, choice)
    {
      hide FlatChoice, QueuesOk, RetainedInFront, Clean, EntryOk, QueueCapacity, Capacity, ClassOf;
      var selected: Option<(nat, Item)> := None;
      var class_ := 0;
      choice := None;
      NothingYet(entries, queues, nextGeneration, reservedBytes, limits);
      while class_ < CLASS_COUNT
        invariant 0 <= class_ <= CLASS_COUNT && |queues| == CLASS_COUNT
        invariant forall c :: 0 <= c < class_ ==> queues[c] == Clean(entries, old(queues)[c])
        invariant forall c :: class_ <= c < CLASS_COUNT ==> queues[c] == old(queues)[c]
        invariant choice == if selected.Some? then Some(selected.value.1) else None
        invariant selected.Some? ==>
          selected.value.0 < class_ && queues[selected.value.0] != [] && queues[selected.value.0][0] == selected.value.1
        invariant FlatChoice(entries, old(queues)[..class_], reservedBytes, limits, choice)
      {
        FlatExtend(entries, old(queues), nextGeneration, class_, reservedBytes, limits, choice);
        FrontCapacity(entries, old(queues), nextGeneration, class_, limits);
        var front := CleanQueueFront(class_);
        if front.Some? {
          var item := front.value;
          var e := entries[item.index];
          var capacity := if e.retryBuffer.Some? then e.retryBuffer.value else QueueCapacity(class_);
          var limit := if item.priority then limits.bytes else SaturatingSub(limits.bytes, limits.reserve);
          if e.retryBuffer.Some? || reservedBytes + capacity <= limit {
            var shouldSelect := match selected
              case None => true
              case Some((_, current)) =>
                if item.priority != current.priority then item.priority
                else if item.priority then item.generation > current.generation
                else item.generation < current.generation;
            if shouldSelect {
              selected := Some((class_, item));
              choice := Some(item);
            }
          }
        }
        class_ := class_ + 1;
      }
      assert old(queues)[..CLASS_COUNT] == old(queues);
      if selected.None? {
        return None, None;
      }
      var (c, item) := selected.value;
      FrontCapacity(entries, old(queues), nextGeneration, c, limits);
      queues := queues[c := queues[c][1..]];
      var e := entries[item.index];
      taken := Some((item.index, if e.retryBuffer.Some? then e.retryBuffer.value else QueueCapacity(c)));
    }
  
    method Admit(index: nat, reserved: nat)
      requires index in entries && reserved == Capacity(entries[index].len)
      modifies this`entries, this`activeFiles, this`reservedBytes, this`opening
      ensures Snapshot() == Admitted(old(Snapshot()), queues, index)
    {
      hide Capacity;
      var e := entries[index];
      entries := entries[index := e.(status := Opening, attempts := e.attempts + 1, retryBuffer := None)];
      activeFiles := activeFiles + 1;
      if e.retryBuffer.None? {
        reservedBytes := reservedBytes + reserved;
      }
      opening := opening[index := reserved];
    }

    /** One turn of an open worker under the lock: admit a file, or find nothing to do. */
    method OpenNext() returns (task: Option<(nat, nat)>, ghost choice: Option<Item>)
      requires Valid()
      modifies this`entries, this`queues, this`activeFiles, this`reservedBytes, this`opening
      ensures Valid()
      ensures isShutdown || isFatal || old(activeFiles) >= limits.active ==>
        task == None && Snapshot() == old(Snapshot())
      ensures !isShutdown && !isFatal && old(activeFiles) < limits.active ==>
        && FlatChoice(old(entries), old(queues), old(reservedBytes), limits, choice)
        && TakenFrom(old(entries), old(queues), queues, choice)
        && task == (if choice.None? then None
           else Some((choice.value.index, Capacity(old(entries)[choice.value.index].len))))
      ensures task.Some? ==>
        task.value.0 in old(entries) && Snapshot() == Admitted(old(Snapshot()), queues, task.value.0)
      ensures task.None? ==> Snapshot() == old(Snapshot()).(queues := queues)
      // told by the files alone: what fits is picked, the file in demand first
      ensures !isShutdown && !isFatal && old(activeFiles) < limits.active ==>
        RightPick(old(Snapshot()), limits, if task.None? then None else Some(task.value.0))
      // the deadlock the design avoids
      ensures demand.Some? && demand.value in old(entries) && old(entries)[demand.value].status.Pending?
              && !isShutdown && !isFatal && old(activeFiles) < limits.active ==>
        task == Some((demand.value, Capacity(old(entries)[demand.value].len)))
    {
      hide Accounted, QueuesOk, DemandOk, Claimed, TakenFrom, Admissible, Clean, ClassOf, Live, RetainedInFront,
           Capacity, BufferClass, FlatChoice, Inv, RightPick;
      task := None;
      choice := None;
      if isShutdown || isFatal || activeFiles >= limits.active {
        return;
      }
      ghost var s := Snapshot();
      CanTake(s, limits);
      task, choice := TakeNextPending();
      RightlyPicked(s, limits, choice);
      if demand.Some? && demand.value in s.entries && s.entries[demand.value].status.Pending? {
        NoDemandDeadlock(s, limits, demand.value, choice);
      }
      if task.Some? {
        var (index, reserved) := task.value;
        AdmitKeeps(s, limits, queues, choice.value);
        Admit(index, reserved);
      } else {
        IdleKeeps(s, limits, queues);
      }
    }

    /** Look-ahead (`priority` false) or the consumer's demand (`priority` true). */
    method Enqueue(index: nat, len: nat, priority: bool)
      requires Valid()
      requires BufferClass(len).Some? ==> len <= threshold
      requires index in entries ==> entries[index].len == len
      requires priority ==> demand.None? || demand == Some(index)
      requires !priority ==> demand != Some(index) || index in entries
      modifies this`entries, this`queues, this`nextGeneration, this`demand
      ensures Valid()
      ensures BufferClass(len).None? || isShutdown || isFatal ==> Snapshot() == old(Snapshot())
      ensures BufferClass(len).Some? && !isShutdown && !isFatal ==>
        && demand == (if priority then Some(index) else old(demand))
        && index in entries
        && (index !in old(entries) ==>
           entries == old(entries)[index := Entry(len, Pending, 0, old(nextGeneration), None)])
        && (index in old(entries) && !(priority && old(entries)[index].status.Pending?) ==>
           entries == old(entries) && queues == old(queues))
        && (index in old(entries) && priority && old(entries)[index].status.Pending? ==>
              entries == old(entries)[index := old(entries)[index].(generation := old(nextGeneration))])
        && (index !in old(entries) || (priority && old(entries)[index].status.Pending?) ==>
              Requeued(old(queues), queues, ClassOf(len), Item(index, old(nextGeneration), priority)))
    {
      hide Accounted, QueuesOk, DemandOk, Claimed, Clean, Pushed;
      if BufferClass(len).None? || isShutdown || isFatal {
        return;
      }
      ghost var s := Snapshot();
      var class_ := BufferClass(len).value.0;
      WithinLimits(s, limits);
      CapacityFits(len);
      CapacityMonotone(len, threshold);
      if index in entries {
        EntriesOk(s, limits);
        if priority {
          ghost var wanted := Some(index);
          if entries[index].status.Pending? {
            PendKeeps(s, limits, index, entries[index].(generation := nextGeneration), true, wanted);
            EnqueueIndex(index, class_, true);
          } else {
            DemandKeeps(s, limits, index);
          }
          demand := wanted;
        }
        return;
      }
      PendKeeps(s, limits, index, Entry(len, Pending, 0, nextGeneration, None), priority,
                if priority then Some(index) else demand);
      entries := entries[index := Entry(len, Pending, 0, 0, None)];
      EnqueueIndex(index, class_, priority);
      if priority {
        demand := Some(index);
      }
      assert entries == s.entries[index := Entry(len, Pending, 0, s.nextGeneration, None)];
    }

    /** An open worker or a read submission failed: the reservation stays with the file. */
    method SmallFailure(index: nat, reserved: nat, retryable: bool)
      requires Valid()
      requires (index in opening && opening[index] == reserved)
               || (index in operations && operations[index] == reserved)
      modifies this`entries, this`activeFiles, this`opening, this`operations
      ensures Valid() && index in old(entries)
      ensures activeFiles == old(activeFiles) - 1
      ensures entries == old(entries)[index :=
              old(entries)[index].(status := Failed(retryable), retryBuffer := Some(reserved))]
      ensures opening == old(opening) - {index} && operations == old(operations) - {index}
    {
      hide Inv, Capacity, BufferClass, Total, ClassOf;
      ghost var s := Snapshot();
      ClaimFacts(s, limits, index);
      activeFiles := SaturatingSub(activeFiles, 1);
      opening := opening - {index};
      operations := operations - {index};
      // the claim's file is always in the table, so there is no reservation to give back here
      entries := entries[index := entries[index].(status := Failed(retryable), retryBuffer := Some(reserved))];
      MoveKeeps(s, limits, index, entries[index], Snapshot());
    }

    /** An empty file needs no read once it opened. */
    method FinishEmpty(index: nat, reserved: nat)
      requires Valid()
      requires index in opening && opening[index] == reserved
      modifies this`entries, this`activeFiles, this`opening
      ensures Valid() && index in old(entries)
      ensures activeFiles == old(activeFiles) - 1 && opening == old(opening) - {index}
      ensures entries == old(entries)[index := old(entries)[index].(status := Ready(reserved))]
    {
      hide Inv, Capacity, BufferClass, Total, ClassOf;
      ghost var s := Snapshot();
      ClaimFacts(s, limits, index);
      activeFiles := SaturatingSub(activeFiles, 1);
      opening := opening - {index};
      entries := entries[index := entries[index].(status := Ready(reserved))];
      assert operations - {index} == operations;
      MoveKeeps(s, limits, index, entries[index], Snapshot());
    }

    /** The worker hands its buffer and reservation to a read in flight. */
    method SubmitRead(index: nat, reserved: nat)
      requires Valid()
      requires index in opening && opening[index] == reserved
      modifies this`entries, this`opening, this`operations
      ensures Valid() && index in old(entries)
      ensures opening == old(opening) - {index} && operations == old(operations)[index := reserved]
      ensures entries == old(entries)[index := old(entries)[index].(status := InFlight)]
    {
      hide Inv, Capacity, BufferClass, Total, ClassOf;
      ghost var s := Snapshot();
      ClaimFacts(s, limits, index);
      entries := entries[index := entries[index].(status := InFlight)];
      opening := opening - {index};
      operations := operations[index := reserved];
      MoveKeeps(s, limits, index, entries[index], Snapshot());
    }

    /** A read in flight ended, in full (`ok`) or not. */
    method Complete(index: nat, ok: bool, retryable: bool)
      requires Valid() && index in operations
      modifies this`entries, this`activeFiles, this`reservedBytes, this`operations
      ensures Valid() && index in old(entries)
      ensures activeFiles == old(activeFiles) - 1 && operations == old(operations) - {index}
      ensures isShutdown ==>
        entries == old(entries) - {index} && reservedBytes == old(reservedBytes) - old(operations)[index]
      ensures !isShutdown ==> reservedBytes == old(reservedBytes)
      ensures !isShutdown ==>
        entries == old(entries)[index := if ok then old(entries)[index].(status := Ready(old(operations)[index]))
                                            else old(entries)[index].(status := Failed(retryable),
                                                                      retryBuffer := Some(old(operations)[index]))]
    {
      hide Inv, Capacity, BufferClass, Total, ClassOf;
      ghost var s := Snapshot();
      ClaimFacts(s, limits, index);
      var reserved := operations[index];
      operations := operations - {index};
      assert opening - {index} == opening;
      activeFiles := SaturatingSub(activeFiles, 1);
      if isShutdown {
        reservedBytes := SaturatingSub(reservedBytes, reserved);
        entries := entries - {index};
        DropKeeps(s, limits, index, demand);
      } else if ok {
        entries := entries[index := entries[index].(status := Ready(reserved))];
        MoveKeeps(s, limits, index, entries[index], Snapshot());
      } else {
        entries := entries[index := entries[index].(status := Failed(retryable), retryBuffer := Some(reserved))];
        MoveKeeps(s, limits, index, entries[index], Snapshot());
      }
    }

    /** One look of the waiting consumer under the lock. */
    method WaitStep(index: nat, cancelled: bool) returns (r: Taken)
      requires Valid()
      modifies this`entries
      ensures Valid()
      ensures r == if cancelled then Interrupted
                   else if isFatal then GaveUp
                   else if index !in old(entries) then NotQueued
                   else match old(entries)[index].status
                        case Ready(reserved) => TookFile(reserved)
                        case Failed(retryable) =>
                          if !retryable || old(entries)[index].attempts > limits.maxRetries then GaveUp
                          else RetryAfter(old(entries)[index].attempts)
                        case _ => KeepWaiting
      ensures r.TookFile? ==> index in old(entries) && r.reserved == Capacity(old(entries)[index].len)
                              && entries == old(entries)[index := old(entries)[index].(status := Borrowed)]
      ensures !r.TookFile? ==> entries == old(entries)
    {
      hide Inv, Capacity, BufferClass, Total, ClassOf;
      if cancelled {
        return Interrupted;
      }
      if isFatal {
        return GaveUp;
      }
      if index !in entries {
        return NotQueued;
      }
      match entries[index].status
      case Ready(reserved) =>
        ghost var s := Snapshot();
        EntriesOk(s, limits);
        IdleClaims(s, limits, index);
        entries := entries[index := entries[index].(status := Borrowed)];
        MoveKeeps(s, limits, index, entries[index], Snapshot());
        r := TookFile(reserved);
      case Failed(retryable) =>
        var attempts := entries[index].attempts;
        r := if !retryable || attempts > limits.maxRetries then GaveUp else RetryAfter(attempts);
      case _ =>
        r := KeepWaiting;
    }

    /** After the retry delay: pending again, at the front, with the reservation it kept. */
    method RetryFailed(index: nat, attempts: nat)
      requires Valid() && demand == Some(index) && attempts <= limits.maxRetries
      modifies this`entries, this`queues, this`nextGeneration
      ensures Valid()
      ensures index in old(entries) && old(entries)[index].attempts == attempts
              && old(entries)[index].status.Failed? ==>
        entries == old(entries)[index := old(entries)[index].(status := Pending, generation := old(nextGeneration))]
        && entries[index].retryBuffer == Some(Capacity(entries[index].len))
        && Requeued(old(queues), queues, ClassOf(entries[index].len), Item(index, old(nextGeneration), true))
      ensures !(index in old(entries) && old(entries)[index].attempts == attempts
              && old(entries)[index].status.Failed?) ==>
        Snapshot() == old(Snapshot())
    {
      hide Accounted, QueuesOk, DemandOk, Claimed, Pushed;
      if index in entries && entries[index].attempts == attempts && entries[index].status.Failed? {
        ghost var s := Snapshot();
        EntriesOk(s, limits);
        WithinLimits(s, limits);
        var class_ := ClassOf(entries[index].len);
        CapacityFits(entries[index].len);
        PendKeeps(s, limits, index, entries[index].(status := Pending, generation := nextGeneration), true, demand);
        entries := entries[index := entries[index].(status := Pending)];
        EnqueueIndex(index, class_, true);
        assert entries == s.entries[index := s.entries[index].(status := Pending, generation := s.nextGeneration)];
      }
    }

    /** The consumer is done with a file it took. */
    method Release(index: nat, reserved: nat)
      requires Valid() && index in entries && entries[index].status.Borrowed?
               && reserved == Capacity(entries[index].len)
      modifies this`entries, this`reservedBytes, this`demand
      ensures Valid() && entries == old(entries) - {index}
      ensures reservedBytes == old(reservedBytes) - reserved
      ensures demand == if old(demand) == Some(index) then None else old(demand)
    {
      hide Inv, Capacity, BufferClass, Total, ClassOf;
      ghost var s := Snapshot();
      IdleClaims(s, limits, index);
      entries := entries - {index};
      reservedBytes := SaturatingSub(reservedBytes, reserved);
      DropKeeps(s, limits, index, if demand == Some(index) then None else demand);
      if demand == Some(index) {
        demand := None;
      }
    }

    /** The watchdog gave up on a read that cannot be cancelled: the run ends with an error. */
    method Fail()
      requires Valid()
      modifies this`isFatal
      ensures Valid() && isFatal
    {
      isFatal := true;
    }

    /** Called by the consumer once it waits for no more files. */
    method Shutdown()
      requires Valid()
      modifies this`isShutdown
      ensures Valid() && isShutdown
    {
      isShutdown := true;
    }
  }
}
