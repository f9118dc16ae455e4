/** Replacing every match of one text in another, from the left and without overlap. */
module TextReplacement {
  import opened Common

  predicate MatchesAt(s: string, p: string, i: nat) { i + |p| <= |s| && s[i..i + |p|] == p }

  /** Leftmost match at or after `from`. */
  function Find(s: string, p: string, from: nat): (r: Option<nat>)
    ensures r.Some? ==> from <= r.value && MatchesAt(s, p, r.value) && forall j :: from <= j < r.value ==>
      !MatchesAt(s, p, j)
    ensures r.None? ==> forall j :: from <= j ==> !MatchesAt(s, p, j)
    decreases |s| - from
  {
    if from + |p| > |s| then None
    else if s[from..from + |p|] == p then Some(from)
    else Find(s, p, from + 1)
  }

  /** Matches are taken from the left and do not overlap; replaced text is not searched again. */
  function ReplaceAll(s: string, p: string, r: string): string
    requires p != ""
  {
    match Find(s, p, 0)
    case None => s
    case Some(i) => s[..i] + r + ReplaceAll(s[i + |p|..], p, r)
  }

  function Occurrences(s: string, p: string): nat
    requires p != ""
  {
    match Find(s, p, 0)
    case None => 0
    case Some(i) => 1 + Occurrences(s[i + |p|..], p)
  }

  lemma OneMoreTime(d: int, n: nat)
    ensures d * (1 + n) == d + d * n
  {
  }

  /** The result is as long as the first pass computes. */
  lemma {:induction false} ReplacedLength(s: string, p: string, r: string)
    requires p != ""
    ensures |ReplaceAll(s, p, r)| == |s| + (|r| - |p|) * Occurrences(s, p)
  {
    match Find(s, p, 0)
    case None =>
    case Some(i) =>
      ReplacedLengthStep(s, p, r, i);
  }

  lemma {:induction false} ReplacedLengthStep(s: string, p: string, r: string, i: nat)
    requires p != "" && Find(s, p, 0) == Some(i) && i + |p| <= |s|
    ensures |ReplaceAll(s, p, r)| == |s| + (|r| - |p|) * Occurrences(s, p)
  {
    hide Find, MatchesAt;
    ReplacedLength(s[i + |p|..], p, r);
    OneMoreTime(|r| - |p|, Occurrences(s[i + |p|..], p));
  }

  /** Replacing a text by itself changes nothing, and nothing changes without a match. */
  lemma {:induction false} ReplaceBySelf(s: string, p: string, r: string)
    requires p != "" && (p == r || Occurrences(s, p) == 0)
    ensures ReplaceAll(s, p, r) == s
  {
    match Find(s, p, 0)
    case None =>
    case Some(i) =>
      ReplaceBySelf(s[i + |p|..], p, r);
      assert s == s[..i] + p + s[i + |p|..];
  }

  lemma {:induction false} FindShift(a: string, s: string, p: string, from: nat)
    ensures Find(a + s, p, |a| + from) == match Find(s, p, from) case None => None case Some(i) => Some(|a| + i)
    decreases |s| - from
  {
    hide MatchesAt;
    if from + |p| <= |s| {
      assert (a + s)[|a| + from..|a| + from + |p|] == s[from..from + |p|];
      if s[from..from + |p|] != p {
        FindShift(a, s, p, from + 1);
      }
    }
  }

  lemma {:induction false} NoneOrSome(s: string, p: string)
    requires p != ""
    ensures Find(s, p, 0).Some? <==> Occurrences(s, p) > 0
  {
  }

  lemma {:induction false} GrowingStep(done: string, rest: string, p: string, r: string, i: nat)
    requires p != "" && Find(rest, p, 0) == Some(i)
    ensures i + |p| <= |rest|
    ensures done + ReplaceAll(rest, p, r) == (done + rest[..i] + r) + ReplaceAll(rest[i + |p|..], p, r)
    ensures var result, at := done + rest, |done| + i;
            result[..at] + r + result[at + |p|..] == (done + rest[..i] + r) + rest[i + |p|..]
  {
    ReplaceStep(rest, p, r, i);
    Assoc(done, rest[..i], r, ReplaceAll(rest[i + |p|..], p, r));
    hide Find, ReplaceAll, MatchesAt;
    var result, at := done + rest, |done| + i;
    assert result[..at] == done + rest[..i];
    assert result[at + |p|..] == rest[i + |p|..];
  }

  lemma {:induction false} ReplaceStep(s: string, p: string, r: string, i: nat)
    requires p != "" && Find(s, p, 0) == Some(i)
    ensures i + |p| <= |s| && ReplaceAll(s, p, r) == s[..i] + r + ReplaceAll(s[i + |p|..], p, r)
  {
  }

  lemma {:induction false} CountStep(s: string, p: string, i: nat)
    requires p != "" && Find(s, p, 0) == Some(i)
    ensures i + |p| <= |s| && Occurrences(s, p) == 1 + Occurrences(s[i + |p|..], p)
  {
  }

  lemma {:induction false} NoMatchLeft(s: string, p: string, r: string)
    requires p != "" && Find(s, p, 0) == None
    ensures ReplaceAll(s, p, r) == s && Occurrences(s, p) == 0
  {
  }

  /** In a text of one letter throughout, every letter is a match. */
  lemma {:induction false} EveryLetter(s: string, c: char)
    requires forall i :: 0 <= i < |s| ==> s[i] == c
    ensures Occurrences(s, [c]) == |s|
  {
    if s != "" {
      assert s[0..1] == [c];
      assert Find(s, [c], 0) == Some(0);
      EveryLetter(s[1..], c);
    }
  }

  lemma Assoc(a: string, b: string, c: string, d: string)
    ensures a + (b + c + d) == (a + b + c) + d
  {
  }

  /** The growable version, with a moving search position. */
  method ReplaceAllGrowing(source: string, oldValue: string, newValue: string) returns (result: string, replaced: bool)
    ensures oldValue == "" ==> result == source && !replaced
    ensures oldValue != "" ==>
      result == ReplaceAll(source, oldValue, newValue) && (replaced <==> Occurrences(source, oldValue) > 0)
  {
    hide Find, ReplaceAll, Occurrences;
    result, replaced := source, false;
    if oldValue == "" {
      return;
    }
    NoneOrSome(source, oldValue);
    ghost var done, rest := "", source;
    var position := Find(result, oldValue, 0);
    while position.Some?
      invariant result == done + rest
      invariant position == match Find(rest, oldValue, 0) case None => None case Some(i) => Some(|done| + i)
      invariant ReplaceAll(source, oldValue, newValue) == done + ReplaceAll(rest, oldValue, newValue)
      invariant replaced ==> Occurrences(source, oldValue) > 0
      invariant !replaced ==> rest == source
      decreases |rest|
    {
      var at := position.value;
      ghost var i := at - |done|;
      GrowingStep(done, rest, oldValue, newValue, i);
      result := result[..at] + newValue + result[at + |oldValue|..];
      replaced := true;
      done, rest := done + rest[..i] + newValue, rest[i + |oldValue|..];
      FindShift(done, rest, oldValue, 0);
      position := Find(result, oldValue, at + |newValue|);
    }
    NoMatchLeft(rest, oldValue, newValue);
  }
}
