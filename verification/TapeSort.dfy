/** Sorting the selected files in tape order: sorted runs of bounded size, merged into one output.
    UTF-8 validity of a path and its UTF-16 code units are parameters. */
module TapeSort {
  import opened Common
  import opened RunFormat
  import opened StableMerge

  datatype TapeEntry = TapeEntry(partition: Octet, startBlock: int, length: int, path: seq<Octet>, sequence: nat)

  // ----- the order

  function CompareNat(a: int, b: int): int { if a < b then -1 else if a > b then 1 else 0 }

  function CompareText(a: seq<nat>, b: seq<nat>): int {
    if a == [] then (if b == [] then 0 else -1)
    else if b == [] then 1
    else if a[0] != b[0] then CompareNat(a[0], b[0])
    else CompareText(a[1..], b[1..])
  }

  /** Partition A (label 0) before any other, then the start block, then the path's code units. */
  function CompareKey(x: TapeEntry, y: TapeEntry, utf16: seq<Octet> -> seq<nat>): int {
    var p := CompareNat(if x.partition != 0 then 1 else 0, if y.partition != 0 then 1 else 0);
    if p != 0 then p
    else
      var s := CompareNat(x.startBlock, y.startBlock);
      if s != 0 then s else CompareText(utf16(x.path), utf16(y.path))
  }

  function TapeLeq(utf16: seq<Octet> -> seq<nat>): (TapeEntry, TapeEntry) -> bool {
    (x, y) => CompareKey(x, y, utf16) <= 0
  }

  lemma {:induction false} CompareTextLaws(a: seq<nat>, b: seq<nat>, c: seq<nat>)
    ensures CompareText(a, b) == -CompareText(b, a) && -1 <= CompareText(a, b) <= 1
    ensures CompareText(a, b) <= 0 && CompareText(b, c) <= 0 ==> CompareText(a, c) <= 0
    ensures CompareText(a, b) == 0 <==> a == b
    decreases |a| + |b| + |c|
  {
    if a != [] && b != [] {
      if c != [] {
        CompareTextLaws(a[1..], b[1..], c[1..]);
      } else {
        CompareTextLaws(a[1..], b[1..], []);
      }
      assert a == [a[0]] + a[1..] && b == [b[0]] + b[1..];
    }
  }

  lemma TapeOrder(utf16: seq<Octet> -> seq<nat>)
    ensures TotalPreorder(TapeLeq(utf16))
  {
    var leq := TapeLeq(utf16);
    forall x, y ensures leq(x, y) || leq(y, x) {
      CompareTextLaws(utf16(x.path), utf16(y.path), []);
    }
    forall x, y, z | leq(x, y) && leq(y, z) ensures leq(x, z) {
      CompareTextLaws(utf16(x.path), utf16(y.path), utf16(z.path));
    }
  }

  // ----- the run format

  predicate Storable(e: TapeEntry, utf8: seq<Octet> -> bool) {
    IsI64(e.startBlock) && IsI64(e.length) && |e.path| < TWO_32 && utf8(e.path)
  }

  function Encode(e: TapeEntry): seq<Octet>
    requires IsI64(e.startBlock) && IsI64(e.length)
  {
    [e.partition] + ToI64(e.startBlock) + ToI64(e.length) + Leb(|e.path|) + e.path
  }

  /** One entry and what follows it, nothing at the end of the run, or an error. */
  function Decode(b: seq<Octet>, utf8: seq<Octet> -> bool): Result<Option<(TapeEntry, seq<Octet>)>, ()> {
    if b == [] then Ok(None)
    else if |b| < 17 then Err(())
    else match ParseLeb(b[17..], 0, 0)
         case Err(e) => Err(e)
         case Ok((n, rest)) =>
           if |rest| < n || !utf8(rest[..n]) then Err(())
           else Ok(Some((TapeEntry(b[0], FromI64(b[1..9]), FromI64(b[9..17]), rest[..n], 0), rest[n..])))
  }

  /** An entry comes back as it was written, except for the sequence, which the format drops. */
  lemma DecodeEncode(e: TapeEntry, rest: seq<Octet>, utf8: seq<Octet> -> bool)
    requires Storable(e, utf8)
    ensures Decode(Encode(e) + rest, utf8) == Ok(Some((e.(sequence := 0), rest)))
  {
    var b := Encode(e) + rest;
    var tail := Leb(|e.path|) + (e.path + rest);
    assert b == [e.partition] + ToI64(e.startBlock) + ToI64(e.length) + tail;
    hide Leb, ToI64, FromI64, ParseLeb;
    assert b[1..9] == ToI64(e.startBlock) && b[9..17] == ToI64(e.length) && b[17..] == tail;
    I64RoundTrip(e.startBlock);
    I64RoundTrip(e.length);
    LebRoundTrip(|e.path|, e.path + rest);
    assert (e.path + rest)[..|e.path|] == e.path && (e.path + rest)[|e.path|..] == rest;
  }

  /** An entry's bytes: the partition, block and length in eight bytes each, the length of the path in
      bytes of seven bits, and the path. */
  lemma EntryLayout(e: TapeEntry) returns (lengthBytes: seq<Octet>)
    requires IsI64(e.startBlock) && IsI64(e.length)
    ensures var b := Encode(e);
      && |b| == 17 + |lengthBytes| + |e.path| && b[0] == e.partition
      && U64(b[1..9]) == e.startBlock % TWO_64 && U64(b[9..17]) == e.length % TWO_64
      && b[17..17 + |lengthBytes|] == lengthBytes && b[17 + |lengthBytes|..] == e.path
    ensures Sevens(lengthBytes) == |e.path|
    ensures lengthBytes != [] && forall i :: 0 <= i < |lengthBytes| ==>
      (lengthBytes[i] < 0x80 <==> i == |lengthBytes| - 1)
  {
    hide ToI64, Leb;
    lengthBytes := Leb(|e.path|);
    LebLayout(|e.path|);
    I64Layout(e.startBlock, ToI64(e.startBlock));
    I64Layout(e.length, ToI64(e.length));
    var b := Encode(e);
    assert b[1..9] == ToI64(e.startBlock) && b[9..17] == ToI64(e.length);
  }

  // ----- runs

  function Tags(es: seq<TapeEntry>): (t: seq<Tagged<TapeEntry>>)
    ensures |t| == |es| && forall i :: 0 <= i < |es| ==> t[i] == Tagged(es[i], es[i].sequence)
  {
    seq(|es|, i requires 0 <= i < |es| => Tagged(es[i], es[i].sequence))
  }

  ghost predicate AllStorable(t: seq<Tagged<TapeEntry>>, utf8: seq<Octet> -> bool) {
    forall i :: 0 <= i < |t| ==> Storable(t[i].item, utf8)
  }

  /** The bytes of a run. */
  ghost function RunBytes(t: seq<Tagged<TapeEntry>>, utf8: seq<Octet> -> bool): seq<Octet>
    requires AllStorable(t, utf8)
  {
    if t == [] then [] else Encode(t[0].item) + RunBytes(t[1..], utf8)
  }

  lemma DecodeRun(t: seq<Tagged<TapeEntry>>, utf8: seq<Octet> -> bool)
    requires AllStorable(t, utf8)
    ensures Decode(RunBytes(t, utf8), utf8)
            == if t == [] then Ok(None) else Ok(Some((t[0].item.(sequence := 0), RunBytes(t[1..], utf8))))
  {
    if t != [] {
      DecodeEncode(t[0].item, RunBytes(t[1..], utf8), utf8);
    }
  }

  lemma {:induction false} RunBytesAppend(t: seq<Tagged<TapeEntry>>, x: Tagged<TapeEntry>, utf8: seq<Octet> -> bool)
    requires AllStorable(t, utf8) && Storable(x.item, utf8)
    ensures AllStorable(t + [x], utf8) && RunBytes(t + [x], utf8) == RunBytes(t, utf8) + Encode(x.item)
  {
    hide Encode;
    if t == [] {
      assert ([] + [x])[1..] == [];
      assert RunBytes([x], utf8) == Encode(x.item) + RunBytes([], utf8);
    } else {
      assert (t + [x])[1..] == t[1..] + [x];
      RunBytesAppend(t[1..], x, utf8);
      assert Encode(t[0].item) + (RunBytes(t[1..], utf8) + Encode(x.item)) ==
             (Encode(t[0].item) + RunBytes(t[1..], utf8)) + Encode(x.item);
    }
  }

  /** The run files, each holding one of the sorted runs. */
  ghost predicate Files(runs: seq<seq<Octet>>, tagged: seq<seq<Tagged<TapeEntry>>>, utf8: seq<Octet> -> bool) {
    |runs| == |tagged| && forall i :: 0 <= i < |runs| ==>
      AllStorable(tagged[i], utf8) && runs[i] == RunBytes(tagged[i], utf8)
  }

  // ----- merging

  /** The first `n` runs have their next entry in the heap and their reader behind it; the others
      have not been read from. */
  ghost predicate Fed(readers: seq<seq<Octet>>, heap: map<nat, TapeEntry>, rest: seq<seq<Tagged<TapeEntry>>>, n: nat,
                      utf8: seq<Octet> -> bool)
  {
    && n <= |rest| == |readers|
    && (forall i :: 0 <= i < |rest| ==> AllStorable(rest[i], utf8))
    && (forall i: nat :: i in heap <==> i < n && rest[i] != [])
    && (forall i :: 0 <= i < n && rest[i] != [] ==>
          heap[i] == rest[i][0].item.(sequence := 0) && readers[i] == RunBytes(rest[i][1..], utf8))
    && (forall i :: n <= i < |rest| ==> readers[i] == RunBytes(rest[i], utf8))
  }

  /** What reading run `i`'s next entry leads to. */
  ghost predicate Refilled(readers: seq<seq<Octet>>, heap: map<nat, TapeEntry>, i: nat, run: seq<Tagged<TapeEntry>>,
                           utf8: seq<Octet> -> bool, readers': seq<seq<Octet>>, heap': map<nat, TapeEntry>)
    requires i < |readers| && AllStorable(run, utf8)
  {
    if run == [] then heap' == heap && readers' == readers
    else heap' == heap[i := run[0].item.(sequence := 0)] && readers' == readers[i := RunBytes(run[1..], utf8)]
  }

  lemma FedNext(readers: seq<seq<Octet>>, heap: map<nat, TapeEntry>, rest: seq<seq<Tagged<TapeEntry>>>, n: nat,
                utf8: seq<Octet> -> bool, readers': seq<seq<Octet>>, heap': map<nat, TapeEntry>)
    requires n < |rest| && Fed(readers, heap, rest, n, utf8)
             && Refilled(readers, heap, n, rest[n], utf8, readers', heap')
    ensures Fed(readers', heap', rest, n + 1, utf8) && |readers'| == |readers|
  {
    hide AllStorable, RunBytes;
  }

  lemma FedPop(readers: seq<seq<Octet>>, heap: map<nat, TapeEntry>, rest: seq<seq<Tagged<TapeEntry>>>, i: nat,
               utf8: seq<Octet> -> bool, readers': seq<seq<Octet>>, heap': map<nat, TapeEntry>)
    requires Fed(readers, heap, rest, |rest|, utf8) && i in heap
    requires i < |rest| && rest[i] != [] && AllStorable(rest[i][1..], utf8)
    requires Refilled(readers, heap - {i}, i, rest[i][1..], utf8, readers', heap')
    ensures var after := rest[i := rest[i][1..]]; Fed(readers', heap', after, |after|, utf8) && |readers'| == |readers|
  {
    hide AllStorable, RunBytes;
  }

  lemma FedFacts(readers: seq<seq<Octet>>, heap: map<nat, TapeEntry>, rest: seq<seq<Tagged<TapeEntry>>>,
                 utf8: seq<Octet> -> bool)
    requires Fed(readers, heap, rest, |rest|, utf8)
    ensures forall i: nat :: i in heap ==>
      i < |rest| && rest[i] != [] && AllStorable(rest[i], utf8) && AllStorable(rest[i][1..], utf8)
    ensures forall i: nat :: i in heap ==>
      heap[i] == rest[i][0].item.(sequence := 0) && readers[i] == RunBytes(rest[i][1..], utf8)
    ensures heap == map[] ==> forall i :: 0 <= i < |rest| ==> rest[i] == []
  {
    hide RunBytes, Storable;
  }

  lemma LeastIsFirst(readers: seq<seq<Octet>>, heap: map<nat, TapeEntry>, rest: seq<seq<Tagged<TapeEntry>>>,
                     utf8: seq<Octet> -> bool, utf16: seq<Octet> -> seq<nat>, i: nat)
    requires Fed(readers, heap, rest, |rest|, utf8) && i in heap
    requires forall j :: j in heap && j != i ==>
      CompareKey(heap[i], heap[j], utf16) <= 0 && (CompareKey(heap[i], heap[j], utf16) == 0 ==> i < j)
    ensures HeadFirst(rest, i, TapeLeq(utf16))
  {
    hide RunBytes, AllStorable;
    forall j | 0 <= j < |rest| && rest[j] != [] && j != i
      ensures CompareKey(rest[i][0].item, rest[j][0].item, utf16) <= 0
      ensures CompareKey(rest[j][0].item, rest[i][0].item, utf16) <= 0 ==> i < j
    {
      assert j in heap;
      KeyLaws(heap[i], heap[j], utf16);
    }
  }

  /** The heap's greatest element in its reversed order: least key, then least run number. */
  method PopLeast(heap: map<nat, TapeEntry>, runCount: nat, utf16: seq<Octet> -> seq<nat>) returns (least: nat)
    requires heap != map[] && forall i :: i in heap ==> i < runCount
    ensures least in heap
    ensures forall j :: j in heap && j != least ==>
      CompareKey(heap[least], heap[j], utf16) <= 0 && (CompareKey(heap[least], heap[j], utf16) == 0 ==> least < j)
  {
    var best: Option<nat> := None;
    TapeOrder(utf16);
    for i := 0 to runCount
      invariant best.None? ==> forall j :: j in heap ==> j >= i
      invariant best.Some? ==> best.value in heap && best.value < i
      invariant best.Some? ==> forall j :: j in heap && j < i && j != best.value ==>
        CompareKey(heap[best.value], heap[j], utf16) <= 0
        && (CompareKey(heap[best.value], heap[j], utf16) == 0 ==> best.value < j)
    {
      if i in heap && (best.None? || CompareKey(heap[i], heap[best.value], utf16) < 0) {
        if best.Some? {
          forall j | j in heap && j < i ensures CompareKey(heap[i], heap[j], utf16) < 0 {
            if j != best.value {
              StrictlyLess(heap[i], heap[best.value], heap[j], utf16);
            }
          }
        }
        best := Some(i);
      } else if i in heap {
        KeyLaws(heap[i], heap[best.value], utf16);
      }
    }
    var k :| k in heap;
    least := best.value;
  }

  lemma KeyLaws(x: TapeEntry, y: TapeEntry, utf16: seq<Octet> -> seq<nat>)
    ensures CompareKey(x, y, utf16) == -CompareKey(y, x, utf16) && -1 <= CompareKey(x, y, utf16) <= 1
  {
    CompareTextLaws(utf16(x.path), utf16(y.path), []);
  }

  lemma StrictlyLess(x: TapeEntry, y: TapeEntry, z: TapeEntry, utf16: seq<Octet> -> seq<nat>)
    requires CompareKey(x, y, utf16) < 0 && CompareKey(y, z, utf16) <= 0
    ensures CompareKey(x, z, utf16) < 0
  {
    CompareTextLaws(utf16(x.path), utf16(y.path), utf16(z.path));
    CompareTextLaws(utf16(z.path), utf16(x.path), utf16(y.path));
    CompareTextLaws(utf16(y.path), utf16(z.path), utf16(x.path));
  }

  /** A run's reader advances: its next entry enters the heap, or the run is finished. */
  method Refill(readers: seq<seq<Octet>>, heap: map<nat, TapeEntry>, i: nat, utf8: seq<Octet> -> bool,
                ghost run: seq<Tagged<TapeEntry>>)
    returns (ok: bool, readers': seq<seq<Octet>>, heap': map<nat, TapeEntry>)
    requires i < |readers| && AllStorable(run, utf8) && readers[i] == RunBytes(run, utf8)
    ensures ok && Refilled(readers, heap, i, run, utf8, readers', heap')
  {
    hide Decode, Storable;
    DecodeRun(run, utf8);
    ok, readers', heap' := true, readers, heap;
    match Decode(readers[i], utf8)
    case Err(_) => ok := false;
    case Ok(None) =>
    case Ok(Some((e, more))) => readers', heap' := readers[i := more], heap[i := e];
  }

  /** The k-way merge; one run alone may simply be renamed. */
  method MergeRuns(runs: seq<seq<Octet>>, renamed: bool, utf8: seq<Octet> -> bool, utf16: seq<Octet> -> seq<nat>,
                   ghost tagged: seq<seq<Tagged<TapeEntry>>>, ghost items: seq<Tagged<TapeEntry>>)
    returns (output: Option<seq<Octet>>)
    requires Files(runs, tagged, utf8) && RunsOk(tagged, TapeLeq(utf16))
    requires Distinct(items) && All(tagged) == multiset(items)
    ensures AllStorable(StableSort(items, TapeLeq(utf16)), utf8)
    ensures output == Some(RunBytes(StableSort(items, TapeLeq(utf16)), utf8))
  {
    hide Decode, Encode, Storable, CompareKey, All, StableSort, Merging, HeadFirst, RunsOk, Sorted, Distinct, Files,
         Fed, AllStorable, RunBytes, Refilled;
    ghost var leq := TapeLeq(utf16);
    TapeOrder(utf16);
    MergeStart(runs, tagged, items, leq, utf8);
    if runs == [] {
      MergeDone([], tagged, items, leq);
      return Some([]);
    }
    if |runs| == 1 && renamed {
      OneRun(runs, tagged, items, leq, utf8);
      return Some(runs[0]);
    }
    var readers, heap := runs, map[];
    for i := 0 to |runs|
      invariant Fed(readers, heap, tagged, i, utf8) && |readers| == |runs|
    {
      FedRun(readers, heap, tagged, i, utf8);
      var ok, readers', heap' := Refill(readers, heap, i, utf8, tagged[i]);
      FedNext(readers, heap, tagged, i, utf8, readers', heap');
      readers, heap := readers', heap';
      if !ok {
        return None;
      }
    }
    var written := [];
    ghost var done, rest := [], tagged;
    while heap != map[]
      invariant Fed(readers, heap, rest, |rest|, utf8) && |readers| == |rest| == |runs|
      invariant Merging(done, rest, multiset(items), leq)
      invariant AllStorable(done, utf8) && written == RunBytes(done, utf8)
      decreases |All(rest)|
    {
      FedFacts(readers, heap, rest, utf8);
      var i := PopLeast(heap, |runs|, utf16);
      LeastIsFirst(readers, heap, rest, utf8, utf16, i);
      MergeStep(done, rest, multiset(items), leq, i);
      Written(done, rest[i], utf8, heap[i]);
      AllTake(rest, i);
      written := written + Encode(heap[i]);
      var ok, readers', heap' := Refill(readers, heap - {i}, i, utf8, rest[i][1..]);
      FedPop(readers, heap, rest, i, utf8, readers', heap');
      readers, heap := readers', heap';
      done, rest := done + [rest[i][0]], rest[i := rest[i][1..]];
      if !ok {
        return None;
      }
    }
    FedFacts(readers, heap, rest, utf8);
    MergeDone(done, rest, items, leq);
    output := Some(written);
  }

  lemma MergeStart(runs: seq<seq<Octet>>, tagged: seq<seq<Tagged<TapeEntry>>>, items: seq<Tagged<TapeEntry>>,
                   leq: (TapeEntry, TapeEntry) -> bool, utf8: seq<Octet> -> bool)
    requires Files(runs, tagged, utf8) && RunsOk(tagged, leq) && All(tagged) == multiset(items)
    ensures Fed(runs, map[], tagged, 0, utf8) && Merging([], tagged, multiset(items), leq)
    ensures AllStorable([], utf8) && RunBytes([], utf8) == [] && |tagged| == |runs|
  {
    hide RunsOk, All, Storable;
    var none: seq<Tagged<TapeEntry>> := [];
    assert multiset(none) + All(tagged) == All(tagged);
  }

  lemma FedRun(readers: seq<seq<Octet>>, heap: map<nat, TapeEntry>, rest: seq<seq<Tagged<TapeEntry>>>, i: nat,
               utf8: seq<Octet> -> bool)
    requires Fed(readers, heap, rest, i, utf8) && i < |rest|
    ensures |readers| == |rest| && AllStorable(rest[i], utf8) && readers[i] == RunBytes(rest[i], utf8)
  {
    hide RunBytes, Storable;
  }

  lemma Written(done: seq<Tagged<TapeEntry>>, run: seq<Tagged<TapeEntry>>, utf8: seq<Octet> -> bool, e: TapeEntry)
    requires AllStorable(done, utf8) && AllStorable(run, utf8) && run != [] && e == run[0].item.(sequence := 0)
    ensures IsI64(e.startBlock) && IsI64(e.length)
    ensures AllStorable(done + [run[0]], utf8) && RunBytes(done + [run[0]], utf8) == RunBytes(done, utf8) + Encode(e)
  {
    RunBytesAppend(done, run[0], utf8);
    assert Encode(e) == Encode(run[0].item);
  }

  /** A single run is already the whole result. */
  lemma OneRun(runs: seq<seq<Octet>>, tagged: seq<seq<Tagged<TapeEntry>>>, items: seq<Tagged<TapeEntry>>,
               leq: (TapeEntry, TapeEntry) -> bool, utf8: seq<Octet> -> bool)
    requires TotalPreorder(leq) && Files(runs, tagged, utf8) && RunsOk(tagged, leq) && |runs| == 1
    requires Distinct(items) && All(tagged) == multiset(items)
    ensures tagged[0] == StableSort(items, leq) && AllStorable(tagged[0], utf8) && runs[0] == RunBytes(tagged[0], utf8)
  {
    hide RunBytes, Storable, StableSort, Distinct, Sorted;
    assert All(tagged[1..]) == multiset{};
    assert All(tagged) == multiset(tagged[0]);
    StableSortPermutes(items, leq);
    StableSortSorts(items, leq);
    SortedUnique(tagged[0], StableSort(items, leq), leq);
  }

  // ----- collection

  /** The selected files in traversal order, numbered from 1. */
  function Numbered(files: seq<TapeEntry>): (es: seq<TapeEntry>)
    ensures |es| == |files| && forall i :: 0 <= i < |files| ==> es[i] == files[i].(sequence := i + 1)
  {
    seq(|files|, i requires 0 <= i < |files| => files[i].(sequence := i + 1))
  }

  /** The whole order: by key, ties in traversal order. */
  function TapeOrdered(files: seq<TapeEntry>, utf16: seq<Octet> -> seq<nat>): seq<Tagged<TapeEntry>> {
    StableSort(Tags(Numbered(files)), TapeLeq(utf16))
  }

  lemma NumberedDistinct(files: seq<TapeEntry>)
    ensures Distinct(Tags(Numbered(files)))
  {
  }

  /** Runs written so far hold, sorted, the first `n` files. */
  ghost predicate Collected(runs: seq<seq<Octet>>, tagged: seq<seq<Tagged<TapeEntry>>>, numbered: seq<TapeEntry>,
                            n: nat, leq: (TapeEntry, TapeEntry) -> bool, utf8: seq<Octet> -> bool)
  {
    && n <= |numbered| && Files(runs, tagged, utf8) && RunsOk(tagged, leq)
    && All(tagged) == multiset(Tags(numbered[..n]))
    && (forall i, k :: 0 <= i < |tagged| && 0 <= k < |tagged[i]| ==> tagged[i][k].sequence <= n)
  }

  /** Sorts the collected entries and writes them as a run; fails on a path too long to write. */
  method FlushRun(entries: seq<TapeEntry>, runs: seq<seq<Octet>>, utf8: seq<Octet> -> bool,
                  utf16: seq<Octet> -> seq<nat>)
    returns (r: Option<seq<seq<Octet>>>)
    requires forall e :: e in entries ==> IsI64(e.startBlock) && IsI64(e.length) && utf8(e.path)
    ensures entries == [] ==> r == Some(runs)
    ensures r.None? ==> exists e :: e in entries && |e.path| >= TWO_32
    ensures r.Some? && entries != [] ==>
      var sorted := StableSort(Tags(entries), TapeLeq(utf16));
      AllStorable(sorted, utf8) && r == Some(runs + [RunBytes(sorted, utf8)])
  {
    hide Encode, StableSort, CompareKey, RunBytes;
    if entries == [] {
      return Some(runs);
    }
    var sorted := StableSort(Tags(entries), TapeLeq(utf16));
    var bytes := [];
    NoBytes(utf8);
    for k := 0 to |sorted|
      invariant AllStorable(sorted[..k], utf8) && bytes == RunBytes(sorted[..k], utf8)
    {
      SortedItem(entries, TapeLeq(utf16), k);
      if |sorted[k].item.path| >= TWO_32 {
        return None;
      }
      assert sorted[..k + 1] == sorted[..k] + [sorted[k]];
      RunBytesAppend(sorted[..k], sorted[k], utf8);
      bytes := bytes + Encode(sorted[k].item);
    }
    assert sorted[..|sorted|] == sorted;
    r := Some(runs + [bytes]);
  }

  lemma NoBytes(utf8: seq<Octet> -> bool)
    ensures AllStorable([], utf8) && RunBytes([], utf8) == []
  {
  }

  lemma SortedItem(entries: seq<TapeEntry>, leq: (TapeEntry, TapeEntry) -> bool, k: nat)
    requires k < |StableSort(Tags(entries), leq)|
    ensures StableSort(Tags(entries), leq)[k].item in entries
  {
    var s := StableSort(Tags(entries), leq);
    StableSortPermutes(Tags(entries), leq);
    assert s[k] in multiset(s);
    assert s[k] in Tags(entries);
  }

  lemma CollectedFlush(runs: seq<seq<Octet>>, tagged: seq<seq<Tagged<TapeEntry>>>, numbered: seq<TapeEntry>, n: nat,
                       m: nat, leq: (TapeEntry, TapeEntry) -> bool, utf8: seq<Octet> -> bool)
    requires TotalPreorder(leq) && Collected(runs, tagged, numbered, n, leq, utf8) && n < m <= |numbered|
    requires forall i :: 0 <= i < |numbered| ==> numbered[i].sequence == i + 1
    requires AllStorable(StableSort(Tags(numbered[n..m]), leq), utf8)
    ensures var sorted := StableSort(Tags(numbered[n..m]), leq);
            Collected(runs + [RunBytes(sorted, utf8)], tagged + [sorted], numbered, m, leq, utf8)
  {
    hide StableSort, RunBytes, AllStorable, RunsOk, All, Files, Sorted, Tags;
    var chunk := numbered[n..m];
    var sorted := StableSort(Tags(chunk), leq);
    ChunkSorted(chunk, leq, n, m, numbered);
    AllAppend(tagged, sorted);
    TagsJoin(numbered, n, m);
    RunsAppend(tagged, sorted, leq, n);
    FilesAppend(runs, tagged, sorted, utf8);
  }

  lemma FilesAppend(runs: seq<seq<Octet>>, tagged: seq<seq<Tagged<TapeEntry>>>, sorted: seq<Tagged<TapeEntry>>,
                    utf8: seq<Octet> -> bool)
    requires Files(runs, tagged, utf8) && AllStorable(sorted, utf8)
    ensures Files(runs + [RunBytes(sorted, utf8)], tagged + [sorted], utf8)
  {
    hide RunBytes, AllStorable;
  }

  lemma TagsJoin(numbered: seq<TapeEntry>, n: nat, m: nat)
    requires n <= m <= |numbered|
    ensures multiset(Tags(numbered[..m])) == multiset(Tags(numbered[..n])) + multiset(Tags(numbered[n..m]))
  {
    assert Tags(numbered[..m]) == Tags(numbered[..n]) + Tags(numbered[n..m]);
  }

  lemma ChunkSorted(chunk: seq<TapeEntry>, leq: (TapeEntry, TapeEntry) -> bool, n: nat, m: nat,
                    numbered: seq<TapeEntry>)
    requires TotalPreorder(leq) && n < m <= |numbered| && chunk == numbered[n..m]
    requires forall i :: 0 <= i < |numbered| ==> numbered[i].sequence == i + 1
    ensures var sorted := StableSort(Tags(chunk), leq);
            Sorted(sorted, leq) && multiset(sorted) == multiset(Tags(chunk))
            && forall k :: 0 <= k < |sorted| ==> n < sorted[k].sequence <= m
  {
    var sorted := StableSort(Tags(chunk), leq);
    StableSortPermutes(Tags(chunk), leq);
    StableSortSorts(Tags(chunk), leq);
    forall k | 0 <= k < |sorted| ensures n < sorted[k].sequence <= m {
      assert sorted[k] in multiset(sorted);
      assert sorted[k] in Tags(chunk);
    }
  }

  lemma RunsAppend(tagged: seq<seq<Tagged<TapeEntry>>>, sorted: seq<Tagged<TapeEntry>>,
                   leq: (TapeEntry, TapeEntry) -> bool, n: nat)
    requires RunsOk(tagged, leq) && Sorted(sorted, leq)
    requires forall i, k :: 0 <= i < |tagged| && 0 <= k < |tagged[i]| ==> tagged[i][k].sequence <= n
    requires forall k :: 0 <= k < |sorted| ==> n < sorted[k].sequence
    ensures RunsOk(tagged + [sorted], leq)
  {
    hide Sorted;
  }

  /** The selected files in chunks, each chunk written as a sorted run. */
  method CollectRuns(files: seq<TapeEntry>, chunkSize: nat, utf8: seq<Octet> -> bool, utf16: seq<Octet> -> seq<nat>)
    returns (output: Option<seq<seq<Octet>>>, ghost tagged: seq<seq<Tagged<TapeEntry>>>)
    requires chunkSize > 0 && TotalPreorder(TapeLeq(utf16))
    requires forall e :: e in files ==> IsI64(e.startBlock) && IsI64(e.length) && utf8(e.path)
    ensures output.None? ==> exists e :: e in files && |e.path| >= TWO_32
    ensures output.Some? ==> Collected(output.value, tagged, Numbered(files), |files|, TapeLeq(utf16), utf8)
  {
    hide StableSort, CompareKey, RunBytes, Collected, AllStorable, TotalPreorder;
    ghost var leq, numbered := TapeLeq(utf16), Numbered(files);
    var entries, runs := [], [];
    ghost var n := 0;
    tagged := [];
    CollectedNone(numbered, leq, utf8);
    for k := 0 to |files|
      invariant 0 <= n <= k && entries == numbered[n..k]
      invariant Collected(runs, tagged, numbered, n, leq, utf8)
    {
      entries := entries + [files[k].(sequence := k + 1)];
      assert entries == numbered[n..k + 1];
      if |entries| >= chunkSize {
        InFiles(files, n, k + 1);
        var r := FlushRun(entries, runs, utf8, utf16);
        if r.None? {
          return None, tagged;
        }
        CollectedFlush(runs, tagged, numbered, n, k + 1, leq, utf8);
        tagged := tagged + [StableSort(Tags(entries), leq)];
        runs := r.value;
        entries, n := [], k + 1;
      }
    }
    InFiles(files, n, |files|);
    output := FlushRun(entries, runs, utf8, utf16);
    if output.Some? && entries != [] {
      CollectedFlush(runs, tagged, numbered, n, |files|, leq, utf8);
      tagged := tagged + [StableSort(Tags(entries), leq)];
    }
  }

  // ----- the order, said without the comparison

  /** Shorter up to the first difference, or smaller there. */
  ghost predicate TextBelow(a: seq<nat>, b: seq<nat>) {
    exists k :: 0 <= k <= |a| && k < |b| && a[..k] == b[..k] && (k == |a| || a[k] < b[k])
  }

  predicate SameSide(x: TapeEntry, y: TapeEntry) { x.partition == 0 <==> y.partition == 0 }

  /** File `i` stands before file `j` on tape: partition A first, then by start block, then by the path's
      UTF-16 units, then as they were found. */
  ghost predicate BeforeOnTape(files: seq<TapeEntry>, i: nat, j: nat, utf16: seq<Octet> -> seq<nat>)
    requires i < |files| && j < |files|
  {
    var x, y := files[i], files[j];
    || (x.partition == 0 && y.partition != 0)
    || (SameSide(x, y) && x.startBlock < y.startBlock)
    || (SameSide(x, y) && x.startBlock == y.startBlock && TextBelow(utf16(x.path), utf16(y.path)))
    || (SameSide(x, y) && x.startBlock == y.startBlock && utf16(x.path) == utf16(y.path) && i < j)
  }

  /** Each file once, by its number, in the order of the tape. */
  ghost predicate InTapeOrder(files: seq<TapeEntry>, order: seq<nat>, utf16: seq<Octet> -> seq<nat>) {
    && |order| == |files| && (forall k :: 0 <= k < |order| ==> order[k] < |files|)
    && (forall k, l :: 0 <= k < l < |order| ==> order[k] != order[l] && BeforeOnTape(files, order[k], order[l], utf16))
  }

  /** The files' entries one after another in the given order. */
  ghost function EntryBytes(files: seq<TapeEntry>, order: seq<nat>): seq<Octet>
    requires forall k :: 0 <= k < |order| ==> order[k] < |files|
    requires forall e :: e in files ==> IsI64(e.startBlock) && IsI64(e.length)
  {
    if order == [] then [] else Encode(files[order[0]]) + EntryBytes(files, order[1..])
  }

  lemma {:induction false} BelowByText(a: seq<nat>, b: seq<nat>)
    requires CompareText(a, b) < 0
    ensures TextBelow(a, b)
  {
    if a == [] {
      assert a[..0] == b[..0];
    } else if a[0] != b[0] {
      assert a[..0] == b[..0];
    } else {
      BelowByText(a[1..], b[1..]);
      var k :| 0 <= k <= |a[1..]| && k < |b[1..]| && a[1..][..k] == b[1..][..k]
        && (k == |a[1..]| || a[1..][k] < b[1..][k]);
      assert a[..k + 1] == [a[0]] + a[1..][..k] && b[..k + 1] == [b[0]] + b[1..][..k];
    }
  }

  lemma BelowByKey(files: seq<TapeEntry>, i: nat, j: nat, utf16: seq<Octet> -> seq<nat>)
    requires i < |files| && j < |files|
    requires CompareKey(files[i], files[j], utf16) <= 0
    requires CompareKey(files[j], files[i], utf16) <= 0 ==> i < j
    ensures BeforeOnTape(files, i, j, utf16)
  {
    hide CompareText, TextBelow;
    var x, y := files[i], files[j];
    CompareTextLaws(utf16(x.path), utf16(y.path), []);
    if CompareText(utf16(x.path), utf16(y.path)) < 0 {
      BelowByText(utf16(x.path), utf16(y.path));
    }
  }

  /** Where each entry of the sorted whole was found. */
  lemma FoundAt(files: seq<TapeEntry>, utf16: seq<Octet> -> seq<nat>, k: nat)
    requires k < |TapeOrdered(files, utf16)|
    ensures var t := TapeOrdered(files, utf16)[k];
      1 <= t.sequence <= |files| && t.item == files[t.sequence - 1].(sequence := t.sequence)
  {
    hide StableSort;
    var all := Tags(Numbered(files));
    StableSortPermutes(all, TapeLeq(utf16));
    assert TapeOrdered(files, utf16)[k] in multiset(all);
    var i :| 0 <= i < |all| && all[i] == TapeOrdered(files, utf16)[k];
  }

  lemma TapeOrderedLength(files: seq<TapeEntry>, utf16: seq<Octet> -> seq<nat>)
    ensures |TapeOrdered(files, utf16)| == |files|
  {
    StableSortPermutes(Tags(Numbered(files)), TapeLeq(utf16));
    assert |multiset(TapeOrdered(files, utf16))| == |multiset(Tags(Numbered(files)))|;
  }

  /** The sorted whole, by the files' numbers. */
  lemma TapeOrderIs(files: seq<TapeEntry>, utf16: seq<Octet> -> seq<nat>) returns (order: seq<nat>)
    ensures InTapeOrder(files, order, utf16)
    ensures forall k :: 0 <= k < |TapeOrdered(files, utf16)| ==>
      |TapeOrdered(files, utf16)| == |order|
        && TapeOrdered(files, utf16)[k].item == files[order[k]].(sequence := order[k] + 1)
  {
    hide StableSort, BeforeOnTape, CompareKey;
    var leq, t := TapeLeq(utf16), TapeOrdered(files, utf16);
    TapeOrder(utf16);
    NumberedDistinct(files);
    StableSortSorts(Tags(Numbered(files)), leq);
    TapeOrderedLength(files, utf16);
    forall k | 0 <= k < |t|
      ensures 1 <= t[k].sequence <= |files| && t[k].item == files[t[k].sequence - 1].(sequence := t[k].sequence)
    {
      FoundAt(files, utf16, k);
    }
    order := seq(|t|, k requires 0 <= k < |t| => t[k].sequence - 1);
    forall k, l | 0 <= k < l < |order| ensures order[k] != order[l] && BeforeOnTape(files, order[k], order[l], utf16) {
      assert Before(t[k], t[l], leq);
      SequenceIgnored(files[order[k]], files[order[l]], t[k].item, t[l].item, utf16);
      KeyLaws(files[order[k]], files[order[l]], utf16);
      BelowByKey(files, order[k], order[l], utf16);
    }
  }

  lemma SequenceIgnored(x: TapeEntry, y: TapeEntry, x': TapeEntry, y': TapeEntry, utf16: seq<Octet> -> seq<nat>)
    requires x' == x.(sequence := x'.sequence) && y' == y.(sequence := y'.sequence)
    ensures CompareKey(x', y', utf16) == CompareKey(x, y, utf16) && CompareKey(y', x', utf16) == CompareKey(y, x, utf16)
  {
  }

  lemma {:induction false} OrderedBytes(files: seq<TapeEntry>, t: seq<Tagged<TapeEntry>>, order: seq<nat>,
                                        utf8: seq<Octet> -> bool)
    requires forall e :: e in files ==> IsI64(e.startBlock) && IsI64(e.length)
    requires |order| == |t| && AllStorable(t, utf8)
    requires forall k :: 0 <= k < |order| ==>
      order[k] < |files| && t[k].item == files[order[k]].(sequence := order[k] + 1)
    ensures RunBytes(t, utf8) == EntryBytes(files, order)
  {
    if t != [] {
      OrderedBytes(files, t[1..], order[1..], utf8);
      assert Encode(t[0].item) == Encode(files[order[0]]);
    }
  }

  /** The whole tape sort: whatever the chunk size, the output is the selected files in tape order,
      ties in traversal order; or nothing, when some path cannot be written. */
  method SortTape(files: seq<TapeEntry>, chunkSize: nat, renamed: bool, utf8: seq<Octet> -> bool,
                  utf16: seq<Octet> -> seq<nat>)
    returns (output: Option<seq<Octet>>, ghost order: seq<nat>)
    requires chunkSize > 0
    requires forall e :: e in files ==> IsI64(e.startBlock) && IsI64(e.length) && utf8(e.path)
    ensures output.None? <==> exists e :: e in files && |e.path| >= TWO_32
    ensures InTapeOrder(files, order, utf16)
    ensures output.Some? ==> output.value == EntryBytes(files, order)
  {
    hide StableSort, CompareKey, RunBytes, Collected, AllStorable, Files, RunsOk, All, EntryBytes, InTapeOrder,
         BeforeOnTape;
    order := TapeOrderIs(files, utf16);
    TapeOrderedLength(files, utf16);
    TapeOrder(utf16);
    NumberedDistinct(files);
    var runs, tagged := CollectRuns(files, chunkSize, utf8, utf16);
    if runs.None? {
      return None, order;
    }
    CollectedAll(runs.value, tagged, Numbered(files), |files|, TapeLeq(utf16), utf8);
    output := MergeRuns(runs.value, renamed, utf8, utf16, tagged, Tags(Numbered(files)));
    Orders(files, order, utf16);
    OrderedBytes(files, TapeOrdered(files, utf16), order, utf8);
    NoLongPath(files, order, TapeOrdered(files, utf16), utf8);
  }

  lemma Orders(files: seq<TapeEntry>, order: seq<nat>, utf16: seq<Octet> -> seq<nat>)
    requires InTapeOrder(files, order, utf16)
    ensures |order| == |files| && forall k :: 0 <= k < |order| ==> order[k] < |files|
    ensures forall k, l :: 0 <= k < l < |order| ==> order[k] != order[l]
  {
    hide BeforeOnTape;
  }

  /** Every file is somewhere in the order, so none has a path too long to write. */
  lemma NoLongPath(files: seq<TapeEntry>, order: seq<nat>, t: seq<Tagged<TapeEntry>>, utf8: seq<Octet> -> bool)
    requires |order| == |t| == |files| && AllStorable(t, utf8)
    requires forall k :: 0 <= k < |order| ==>
      order[k] < |files| && t[k].item == files[order[k]].(sequence := order[k] + 1)
    requires forall k, l :: 0 <= k < l < |order| ==> order[k] != order[l]
    ensures forall e :: e in files ==> |e.path| < TWO_32
  {
    forall e | e in files ensures |e.path| < TWO_32 {
      var i :| 0 <= i < |files| && files[i] == e;
      Covered(order, |files|, i);
      var k :| 0 <= k < |order| && order[k] == i;
      assert t[k].item.path == e.path;
    }
  }

  lemma InFiles(files: seq<TapeEntry>, n: nat, m: nat)
    requires n <= m <= |files|
    ensures forall e :: e in Numbered(files)[n..m] ==>
      exists f :: f in files && f.startBlock == e.startBlock && f.length == e.length && f.path == e.path
  {
    forall e | e in Numbered(files)[n..m]
      ensures exists f :: f in files && f.startBlock == e.startBlock && f.length == e.length && f.path == e.path
    {
      var i :| n <= i < m && Numbered(files)[i] == e;
      assert files[i] in files;
    }
  }

  lemma CollectedNone(numbered: seq<TapeEntry>, leq: (TapeEntry, TapeEntry) -> bool, utf8: seq<Octet> -> bool)
    ensures Collected([], [], numbered, 0, leq, utf8)
  {
    assert numbered[..0] == [];
  }

  lemma CollectedAll(runs: seq<seq<Octet>>, tagged: seq<seq<Tagged<TapeEntry>>>, numbered: seq<TapeEntry>, n: nat,
                     leq: (TapeEntry, TapeEntry) -> bool, utf8: seq<Octet> -> bool)
    requires Collected(runs, tagged, numbered, n, leq, utf8) && n == |numbered|
    ensures Files(runs, tagged, utf8) && RunsOk(tagged, leq) && All(tagged) == multiset(Tags(numbered))
  {
    assert numbered[..n] == numbered;
  }
}
