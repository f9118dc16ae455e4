/** Stable sorting by sorted runs and a k-way merge, on values.  Items carry the position at which
    they were collected; runs are sorted pieces of consecutive positions. */
module StableMerge {
  datatype Tagged<T> = Tagged(item: T, sequence: nat)

  ghost predicate TotalPreorder<T(!new)>(leq: (T, T) -> bool) {
    && (forall x, y :: leq(x, y) || leq(y, x))
    && (forall x, y, z :: leq(x, y) && leq(y, z) ==> leq(x, z))
  }

  /** Smaller key, or the same key collected earlier. */
  predicate Before<T>(x: Tagged<T>, y: Tagged<T>, leq: (T, T) -> bool) {
    leq(x.item, y.item) && (leq(y.item, x.item) ==> x.sequence < y.sequence)
  }

  ghost predicate Sorted<T(!new)>(s: seq<Tagged<T>>, leq: (T, T) -> bool) {
    forall i, j :: 0 <= i < j < |s| ==> Before(s[i], s[j], leq)
  }

  lemma BeforeTransitive<T(!new)>(x: Tagged<T>, y: Tagged<T>, z: Tagged<T>, leq: (T, T) -> bool)
    requires TotalPreorder(leq) && Before(x, y, leq) && Before(y, z, leq)
    ensures Before(x, z, leq)
  {
  }

  // ----- the order is unique

  /** The positions collected are all different. */
  ghost predicate Distinct<T(!new)>(s: seq<Tagged<T>>) {
    forall i, j :: 0 <= i < j < |s| ==> s[i].sequence != s[j].sequence
  }

  function Insert<T>(x: Tagged<T>, s: seq<Tagged<T>>, leq: (T, T) -> bool): seq<Tagged<T>> {
    if s == [] || Before(x, s[0], leq) then [x] + s else s[..1] + Insert(x, s[1..], leq)
  }

  function StableSort<T>(s: seq<Tagged<T>>, leq: (T, T) -> bool): seq<Tagged<T>> {
    if s == [] then [] else Insert(s[0], StableSort(s[1..], leq), leq)
  }

  lemma {:induction false} InsertPermutes<T>(x: Tagged<T>, s: seq<Tagged<T>>, leq: (T, T) -> bool)
    ensures multiset(Insert(x, s, leq)) == multiset{x} + multiset(s)
  {
    if s == [] || Before(x, s[0], leq) {
    } else {
      InsertPermutes(x, s[1..], leq);
      assert s == s[..1] + s[1..];
    }
  }

  lemma Decons<T>(s: seq<Tagged<T>>)
    requires s != []
    ensures multiset(s) == multiset{s[0]} + multiset(s[1..])
  {
    assert s == [s[0]] + s[1..];
  }

  lemma {:induction false} StableSortPermutes<T>(s: seq<Tagged<T>>, leq: (T, T) -> bool)
    ensures multiset(StableSort(s, leq)) == multiset(s)
  {
    if s != [] {
      StableSortPermutes(s[1..], leq);
      InsertPermutes(s[0], StableSort(s[1..], leq), leq);
      Decons(s);
    }
  }

  lemma {:induction false} InsertSorts<T(!new)>(x: Tagged<T>, s: seq<Tagged<T>>, leq: (T, T) -> bool)
    requires TotalPreorder(leq) && Sorted(s, leq)
    requires forall y :: y in s ==> y.sequence != x.sequence
    ensures Sorted(Insert(x, s, leq), leq)
  {
    if s == [] || Before(x, s[0], leq) {
      forall j | 0 <= j < |s| ensures Before(x, s[j], leq) {
        if j > 0 {
          assert Before(s[0], s[j], leq);
          BeforeTransitive(x, s[0], s[j], leq);
        }
      }
    } else {
      assert s[0] in s;
      InsertSorts(x, s[1..], leq);
      InsertPermutes(x, s[1..], leq);
      var r := Insert(x, s[1..], leq);
      forall j | 0 <= j < |r| ensures Before(s[0], r[j], leq) {
        assert r[j] in multiset(r);
        if r[j] != x {
          assert r[j] in s[1..];
        }
      }
    }
  }

  lemma {:induction false} StableSortSorts<T(!new)>(s: seq<Tagged<T>>, leq: (T, T) -> bool)
    requires TotalPreorder(leq) && Distinct(s)
    ensures Sorted(StableSort(s, leq), leq)
  {
    if s != [] {
      StableSortSorts(s[1..], leq);
      StableSortPermutes(s[1..], leq);
      forall y | y in StableSort(s[1..], leq) ensures y.sequence != s[0].sequence {
        assert y in multiset(s[1..]);
        assert y in s[1..];
      }
      InsertSorts(s[0], StableSort(s[1..], leq), leq);
    }
  }

  /** There is only one sorted arrangement of the same items. */
  lemma {:induction false} SortedUnique<T(!new)>(a: seq<Tagged<T>>, b: seq<Tagged<T>>, leq: (T, T) -> bool)
    requires Sorted(a, leq) && Sorted(b, leq) && multiset(a) == multiset(b)
    ensures a == b
  {
    hide Before, Sorted;
    SameLength(a, b);
    if a != [] {
      SameHead(a, b, leq);
      SameTail(a, b);
      TailSorted(a, leq);
      TailSorted(b, leq);
      SortedUnique(a[1..], b[1..], leq);
      assert a == [a[0]] + a[1..] && b == [b[0]] + b[1..];
    }
  }

  lemma SameLength<T>(a: seq<Tagged<T>>, b: seq<Tagged<T>>)
    requires multiset(a) == multiset(b)
    ensures |a| == |b|
  {
    assert |multiset(a)| == |a| && |multiset(b)| == |b|;
  }

  lemma SameTail<T>(a: seq<Tagged<T>>, b: seq<Tagged<T>>)
    requires multiset(a) == multiset(b) && a != [] && b != [] && a[0] == b[0]
    ensures multiset(a[1..]) == multiset(b[1..])
  {
    Decons(a);
    Decons(b);
    assert multiset(a[1..]) == multiset(a) - multiset{a[0]};
    assert multiset(b[1..]) == multiset(b) - multiset{b[0]};
  }

  lemma TailSorted<T(!new)>(s: seq<Tagged<T>>, leq: (T, T) -> bool)
    requires Sorted(s, leq) && s != []
    ensures Sorted(s[1..], leq)
  {
  }

  lemma SameHead<T(!new)>(a: seq<Tagged<T>>, b: seq<Tagged<T>>, leq: (T, T) -> bool)
    requires Sorted(a, leq) && Sorted(b, leq) && multiset(a) == multiset(b) && a != [] && b != []
    ensures a[0] == b[0]
  {
    assert a[0] in multiset(b) && b[0] in multiset(a);
    var i :| 0 <= i < |b| && b[i] == a[0];
    var j :| 0 <= j < |a| && a[j] == b[0];
    FirstBefore(b, i, leq);
    FirstBefore(a, j, leq);
  }

  lemma FirstBefore<T(!new)>(s: seq<Tagged<T>>, i: nat, leq: (T, T) -> bool)
    requires Sorted(s, leq) && i < |s|
    ensures s[0] == s[i] || Before(s[0], s[i], leq)
  {
  }

  // ----- permutations

  ghost function Numbers(n: nat): (s: set<nat>)
    ensures |s| == n && forall i: nat :: i in s <==> i < n
  {
    if n == 0 then {} else Numbers(n - 1) + {n - 1}
  }

  lemma {:induction false} NotMore(order: seq<nat>, s: set<nat>)
    requires forall j :: 0 <= j < |order| ==> order[j] in s
    requires forall j, l :: 0 <= j < l < |order| ==> order[j] != order[l]
    ensures |order| <= |s|
  {
    if order != [] {
      NotMore(order[1..], s - {order[0]});
    }
  }

  /** As many different numbers as there are below `n` are all of them. */
  lemma Covered(order: seq<nat>, n: nat, i: nat)
    requires |order| == n && i < n && (forall j :: 0 <= j < n ==> order[j] < n)
    requires forall j, l :: 0 <= j < l < n ==> order[j] != order[l]
    ensures i in order
  {
    if i !in order {
      NotMore(order, Numbers(n) - {i});
    }
  }

  // ----- merging runs

  ghost function All<T>(runs: seq<seq<Tagged<T>>>): multiset<Tagged<T>> {
    if runs == [] then multiset{} else multiset(runs[0]) + All(runs[1..])
  }

  lemma {:induction false} AllTake<T>(runs: seq<seq<Tagged<T>>>, i: nat)
    requires i < |runs| && runs[i] != []
    ensures All(runs) == multiset{runs[i][0]} + All(runs[i := runs[i][1..]])
  {
    var after := runs[i := runs[i][1..]];
    if i == 0 {
      assert runs[0] == [runs[0][0]] + runs[0][1..];
      assert after[1..] == runs[1..];
    } else {
      AllTake(runs[1..], i - 1);
      assert after[1..] == runs[1..][i - 1 := runs[i][1..]];
    }
  }

  lemma {:induction false} AllEmpty<T>(runs: seq<seq<Tagged<T>>>)
    requires forall i :: 0 <= i < |runs| ==> runs[i] == []
    ensures All(runs) == multiset{}
  {
    if runs != [] {
      AllEmpty(runs[1..]);
    }
  }

  lemma {:induction false} AllAppend<T>(runs: seq<seq<Tagged<T>>>, r: seq<Tagged<T>>)
    ensures All(runs + [r]) == All(runs) + multiset(r)
  {
    if runs == [] {
      assert ([] + [r])[1..] == [];
    } else {
      assert (runs + [r])[1..] == runs[1..] + [r];
      AllAppend(runs[1..], r);
    }
  }

  /** Runs are sorted, and hold earlier positions than the runs after them. */
  ghost predicate RunsOk<T(!new)>(runs: seq<seq<Tagged<T>>>, leq: (T, T) -> bool) {
    && (forall i :: 0 <= i < |runs| ==> Sorted(runs[i], leq))
    && (forall i, j, k, l :: 0 <= i < j < |runs| && 0 <= k < |runs[i]| && 0 <= l < |runs[j]| ==>
       runs[i][k].sequence < runs[j][l].sequence)
  }

  /** The merge so far: what is written is sorted and before everything that is left. */
  ghost predicate Merging<T(!new)>(written: seq<Tagged<T>>, rest: seq<seq<Tagged<T>>>, total: multiset<Tagged<T>>,
                            leq: (T, T) -> bool)
  {
    && Sorted(written, leq) && RunsOk(rest, leq) && multiset(written) + All(rest) == total
    && AllBefore(written, rest, leq)
  }

  /** Run `i`'s head goes first among the heads: smaller key, or the same key and an earlier run. */
  ghost predicate HeadFirst<T(!new)>(rest: seq<seq<Tagged<T>>>, i: nat, leq: (T, T) -> bool) {
    && i < |rest| && rest[i] != []
    && (forall j :: 0 <= j < |rest| && rest[j] != [] && j != i ==>
          leq(rest[i][0].item, rest[j][0].item) && (leq(rest[j][0].item, rest[i][0].item) ==> i < j))
  }

  /** Equal keys fall back to the run number, which orders them as the lost positions would. */
  lemma HeadBeforeRest<T(!new)>(rest: seq<seq<Tagged<T>>>, i: nat, leq: (T, T) -> bool, j: nat, k: nat)
    requires TotalPreorder(leq) && RunsOk(rest, leq) && HeadFirst(rest, i, leq)
    requires j < |rest| && k < |rest[j]| && (j == i ==> k > 0)
    ensures Before(rest[i][0], rest[j][k], leq)
  {
    assert Sorted(rest[i], leq) && Sorted(rest[j], leq);
    if j == i {
      assert Before(rest[i][0], rest[i][k], leq);
    } else {
      assert Before(rest[i][0], rest[j][0], leq);
      if k > 0 {
        assert Before(rest[j][0], rest[j][k], leq);
        BeforeTransitive(rest[i][0], rest[j][0], rest[j][k], leq);
      }
    }
  }

  lemma MergeStep<T(!new)>(written: seq<Tagged<T>>, rest: seq<seq<Tagged<T>>>, total: multiset<Tagged<T>>,
                    leq: (T, T) -> bool, i: nat)
    requires TotalPreorder(leq) && Merging(written, rest, total, leq) && HeadFirst(rest, i, leq)
    ensures Merging(written + [rest[i][0]], rest[i := rest[i][1..]], total, leq)
  {
    AllTake(rest, i);
    RunsStep(rest, leq, i);
    WrittenStep(written, rest, leq, i);
    hide RunsOk, Sorted, HeadFirst, All;
  }

  lemma RunsStep<T(!new)>(rest: seq<seq<Tagged<T>>>, leq: (T, T) -> bool, i: nat)
    requires RunsOk(rest, leq) && i < |rest| && rest[i] != []
    ensures RunsOk(rest[i := rest[i][1..]], leq)
  {
    var after := rest[i := rest[i][1..]];
    forall j | 0 <= j < |after| ensures Sorted(after[j], leq) {
      assert Sorted(rest[j], leq);
    }
    hide Sorted;
    forall a, b, k, l | 0 <= a < b < |after| && 0 <= k < |after[a]| && 0 <= l < |after[b]|
      ensures after[a][k].sequence < after[b][l].sequence
    {
      assert after[a][k] == rest[a][if a == i then k + 1 else k];
      assert after[b][l] == rest[b][if b == i then l + 1 else l];
    }
  }

  ghost predicate AllBefore<T(!new)>(written: seq<Tagged<T>>, rest: seq<seq<Tagged<T>>>, leq: (T, T) -> bool) {
    forall w, i, k :: 0 <= w < |written| && 0 <= i < |rest| && 0 <= k < |rest[i]| ==>
      Before(written[w], rest[i][k], leq)
  }

  lemma WrittenStep<T(!new)>(written: seq<Tagged<T>>, rest: seq<seq<Tagged<T>>>, leq: (T, T) -> bool, i: nat)
    requires TotalPreorder(leq) && Sorted(written, leq) && AllBefore(written, rest, leq) && RunsOk(rest, leq)
             && HeadFirst(rest, i, leq)
    ensures Sorted(written + [rest[i][0]], leq) && AllBefore(written + [rest[i][0]], rest[i := rest[i][1..]], leq)
  {
    var x, after := rest[i][0], rest[i := rest[i][1..]];
    var out := written + [x];
    forall v, w | 0 <= v < w < |out| ensures Before(out[v], out[w], leq) {
      if w == |written| {
        assert Before(written[v], rest[i][0], leq);
      }
    }
    forall w, j, k | 0 <= w < |out| && 0 <= j < |after| && 0 <= k < |after[j]|
      ensures Before(out[w], after[j][k], leq)
    {
      var l := if j == i then k + 1 else k;
      assert after[j][k] == rest[j][l];
      if w == |written| {
        hide *;
        HeadBeforeRest(rest, i, leq, j, l);
      }
    }
  }

  lemma MergeDone<T(!new)>(written: seq<Tagged<T>>, rest: seq<seq<Tagged<T>>>, items: seq<Tagged<T>>,
                    leq: (T, T) -> bool)
    requires TotalPreorder(leq) && Distinct(items) && Merging(written, rest, multiset(items), leq)
    requires forall i :: 0 <= i < |rest| ==> rest[i] == []
    ensures written == StableSort(items, leq)
  {
    AllEmpty(rest);
    StableSortPermutes(items, leq);
    StableSortSorts(items, leq);
    SortedUnique(written, StableSort(items, leq), leq);
  }
}
