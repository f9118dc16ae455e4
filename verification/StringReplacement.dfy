/** In-place replacement of a substring in a fixed C buffer, in two passes. */
module StringReplacement {
  import opened Common
  import opened TextReplacement

  const NUL: char := '\0'

  // ----- C strings in a buffer

  predicate Terminated(b: seq<char>, from: nat) { exists i :: from <= i < |b| && b[i] == NUL }

  /** Number of characters before the terminator. */
  function StrLen(b: seq<char>, from: nat): (n: nat)
    requires Terminated(b, from)
    ensures from + n < |b| && b[from + n] == NUL && forall i :: from <= i < from + n ==> b[i] != NUL
    decreases |b| - from
  {
    if b[from] == NUL then 0 else 1 + StrLen(b, from + 1)
  }

  function CString(b: seq<char>, from: nat): string
    requires Terminated(b, from)
  {
    b[from..from + StrLen(b, from)]
  }

  /** Leftmost match in the C string that starts at `from`, as a buffer position. */
  function StrStr(b: seq<char>, from: nat, p: string): Option<nat>
    requires Terminated(b, from)
  {
    match Find(CString(b, from), p, 0)
    case None => None
    case Some(i) => Some(from + i)
  }

  predicate Plain(s: string) { NUL !in s }

  lemma CStringIs(b: seq<char>, from: nat, s: string)
    requires from + |s| < |b| && b[from..from + |s|] == s && b[from + |s|] == NUL && Plain(s)
    ensures Terminated(b, from) && CString(b, from) == s && StrLen(b, from) == |s|
  {
    assert forall k :: 0 <= k < |s| ==> s[k] == b[from..from + |s|][k] == b[from + k];
  }

  // ----- the second pass

  /** The buffer after one match at `target` in a string of length `len` was replaced in place. */
  function OneReplaced(b: seq<char>, target: nat, sourceLen: nat, r: string, len: nat): seq<char>
    requires target + sourceLen <= len < |b| && len - sourceLen + |r| < |b|
  {
    b[..target] + r + b[target + sourceLen..len] + [NUL] + b[len - sourceLen + |r| + 1..]
  }

  /** From every stale position on, a terminator comes within `n` characters. */
  ghost predicate Stale(b: seq<char>, len: nat, end: nat, n: nat) {
    forall p :: len < p <= end ==> NulWithin(b, p, n, end)
  }

  ghost predicate NulWithin(b: seq<char>, p: nat, n: nat, end: nat) {
    exists q :: p <= q < p + n && q <= end < |b| && b[q] == NUL
  }

  lemma StaleHasNoMatch(b: seq<char>, p: nat, n: nat, end: nat, pattern: string)
    requires NulWithin(b, p, n, end) && |pattern| == n
    ensures Terminated(b, p) && StrLen(b, p) < n && StrStr(b, p, pattern) == None && p + StrLen(b, p) <= end
  {
    var q :| p <= q < p + n && q <= end < |b| && b[q] == NUL;
    assert Terminated(b, p);
    assert !(q < p + StrLen(b, p));
  }

  method ReplaceOne(buf: array<char>, target: nat, sourceLen: nat, r: string, len: nat)
    requires target + sourceLen <= len < buf.Length && len - sourceLen + |r| < buf.Length
    modifies buf
    ensures buf[..] == OneReplaced(old(buf[..]), target, sourceLen, r, len)
  {
    var balance := len - (target + sourceLen);
    // memmove: all reads happen before the writes
    forall i | 0 <= i < balance {
      buf[target + |r| + i] := buf[target + sourceLen + i];
    }
    forall i | 0 <= i < |r| {
      buf[target + i] := r[i];
    }
    buf[target + |r| + balance] := NUL;
    ghost var b := old(buf[..]);
    ghost var want := OneReplaced(b, target, sourceLen, r, len);
    assert forall i :: 0 <= i < buf.Length ==> buf[i] == want[i];
  }

  /** The buffer holds `done + rest`, terminated, and every stale piece up to `end` is short. */
  ghost predicate Holding(b: seq<char>, done: string, rest: string, end: nat, n: nat) {
    var len := |done| + |rest|;
    len < |b| && b[..len] == done + rest && b[len] == NUL && Plain(done) && Plain(rest)
    && end < |b| && Stale(b, len, end, n)
  }

  lemma HoldingStep(b: seq<char>, done: string, rest: string, end: nat, p: string, r: string, i: nat)
    requires p != "" && Holding(b, done, rest, end, |p|) && MatchesAt(rest, p, i) && Plain(r)
    requires |done| + |rest| - |p| + |r| < |b|
    requires |r| < |p| ==> |done| + |rest| <= end
    requires |r| >= |p| ==> end <= |done| + |rest|
    ensures var c := OneReplaced(b, |done| + i, |p|, r, |done| + |rest|);
            Holding(c, done + rest[..i] + r, rest[i + |p|..], end, |p|)
  {
    var len, target := |done| + |rest|, |done| + i;
    var c := OneReplaced(b, target, |p|, r, len);
    var shorter := len - |p| + |r|;
    assert c[..shorter] == b[..target] + r + b[target + |p|..len];
    assert b[..target] == b[..len][..target] == done + rest[..i];
    assert b[target + |p|..len] == b[..len][target + |p|..] == rest[i + |p|..];
    assert c[shorter] == NUL;
    assert forall q :: shorter < q < |b| ==> c[q] == b[q];
    forall q | shorter < q <= end ensures NulWithin(c, q, |p|, end) {
      if q <= len {
        assert c[len] == NUL;
      } else {
        assert NulWithin(b, q, |p|, end);
        var z :| q <= z < q + |p| && z <= end < |b| && b[z] == NUL;
        assert c[z] == NUL;
      }
    }
  }

  // ----- size arithmetic

  const SIZE_LIMIT: int := 0x1_0000_0000_0000_0000

  /** The value of an expression of type `size_t`, which wraps. */
  function SizeT(x: int): (r: nat)
    ensures r < SIZE_LIMIT
  {
    x % SIZE_LIMIT
  }

  function NewLength(oldLength: nat, replacementLen: nat, sourceLen: nat, count: nat): nat {
    SizeT(SizeT(oldLength + SizeT(SizeT(replacementLen - sourceLen) * count)) + 1)
  }

  lemma SameResidue(a: int, b: int, k: int)
    requires a == b + SIZE_LIMIT * k && 0 <= a < SIZE_LIMIT
    ensures a == SizeT(b)
  {
    var r, q := SizeT(b), b / SIZE_LIMIT;
    assert a == r + SIZE_LIMIT * (q + k);
  }

  /** The length computed is the true one, terminator included, up to a multiple of 2^64; a difference
      that wrapped below zero does no harm. */
  lemma NewLengthWraps(oldLength: nat, replacementLen: nat, sourceLen: nat, count: nat)
    ensures NewLength(oldLength, replacementLen, sourceLen, count) ==
            SizeT(oldLength + (replacementLen - sourceLen) * count + 1)
  {
    var d := replacementLen - sourceLen;
    var k := d / SIZE_LIMIT;
    var p := SizeT(d) * count;
    var m := p / SIZE_LIMIT;
    var sum := oldLength + SizeT(p);
    var l := sum / SIZE_LIMIT;
    var last := SizeT(sum) + 1;
    var j := last / SIZE_LIMIT;
    assert p == d * count - SIZE_LIMIT * (k * count) by {
      assert SizeT(d) == d - SIZE_LIMIT * k;
      WrappedProduct(d, SIZE_LIMIT, k, count);
    }
    SameResidue(SizeT(last), oldLength + d * count + 1, -(k * count + m + l + j));
  }

  /** The size check decides correctly exactly when the true length fits, or is still too large after
      wrapping. */
  lemma FitsIff(oldLength: nat, replacementLen: nat, sourceLen: nat, count: nat, newBufferLen: nat)
    requires oldLength + (replacementLen - sourceLen) * count >= 0 && newBufferLen < SIZE_LIMIT
    ensures var exact := oldLength + (replacementLen - sourceLen) * count + 1;
      (NewLength(oldLength, replacementLen, sourceLen, count) <= newBufferLen <==> exact <= newBufferLen)
      <==> exact <= newBufferLen || SizeT(exact) > newBufferLen
  {
    hide NewLength;
    NewLengthWraps(oldLength, replacementLen, sourceLen, count);
  }

  /** The routine's size check lets a result through that does not fit. */
  predicate CheckFails(text: string, oldText: string, newText: string, newBufferLen: nat)
    requires oldText != ""
  {
    var exact := |ReplaceAll(text, oldText, newText)| + 1;
    Occurrences(text, oldText) > 0 && SizeT(exact) <= newBufferLen < exact
  }

  /** A text of 2^31 letters, each replaced by 2^33 + 1: for any 32-bit buffer length above 2^31 the
      check computes 2^31 + 1, and the result is longer by 2^64. */
  lemma WrappedFitExample(newText: string, newBufferLen: nat)
    requires |newText| == 0x2_0000_0001 && 0x8000_0001 <= newBufferLen < 0x1_0000_0000
    ensures var text := seq(0x8000_0000, _ => 'a');
      && NewLength(|text|, |newText|, |"a"|, Occurrences(text, "a")) == 0x8000_0001
      && |ReplaceAll(text, "a", newText)| + 1 == SIZE_LIMIT + 0x8000_0001
      && CheckFails(text, "a", newText, newBufferLen)
  {
    hide NewLength, Occurrences, ReplaceAll;
    var text := seq(0x8000_0000, _ => 'a');
    EveryLetter(text, 'a');
    ReplacedLength(text, "a", newText);
    NewLengthWraps(|text|, |newText|, 1, Occurrences(text, "a"));
  }

  lemma WrappedProduct(d: int, w: int, k: int, n: nat)
    ensures (d - w * k) * n == d * n - w * (k * n)
  {
    assert (w * k) * n == w * (k * n);
  }

  // ----- the routine

  /** The first pass. */
  method CountMatches(b: seq<char>, p: string) returns (count: nat)
    requires p != "" && Terminated(b, 0) && Plain(p)
    ensures count == Occurrences(CString(b, 0), p)
  {
    hide Find, Occurrences;
    count := 0;
    ghost var s, rest := CString(b, 0), CString(b, 0);
    var start, end := 0, StrLen(b, 0);
    NoOccurrenceInEmpty(p);
    while start < end
      invariant start == 0 || start == end + 1
      invariant if start == 0 then count == 0 else count == Occurrences(s, p)
      decreases end + 1 - start
    {
      rest := s;
      var target := StrStr(b, start, p);
      while target.Some?
        invariant 0 <= start <= end && b[start..end] == rest
        invariant target == match Find(rest, p, 0) case None => None case Some(i) => Some(start + i)
        invariant count + Occurrences(rest, p) == Occurrences(s, p)
        decreases |rest|
      {
        count := count + 1;
        ghost var i := target.value - start;
        CountStep(rest, p, i);
        start := target.value + |p|;
        assert b[start..end] == rest[i + |p|..];
        rest := rest[i + |p|..];
        SuffixIsCString(b, start, end);
        target := StrStr(b, start, p);
      }
      SuffixIsCString(b, start, end);
      NoMatchLeft(rest, p, "");
      start := start + StrLen(b, start) + 1;
    }
  }

  lemma {:induction false} NoOccurrenceInEmpty(p: string)
    requires p != ""
    ensures Occurrences("", p) == 0
  {
  }

  lemma SuffixIsCString(b: seq<char>, from: nat, end: nat)
    requires Terminated(b, 0) && end == StrLen(b, 0) && from <= end
    ensures Terminated(b, from) && CString(b, from) == b[from..end] && StrLen(b, from) == end - from
  {
    CStringIs(b, from, b[from..end]);
  }

  /** Replaces every match in a C string within its buffer.  Returns the number of replacements; 0,
      with the buffer untouched, when there is none or the result does not fit.  `None` stands for a size
      check that fails to see that: from there the program would write past its buffer.  A null
      `oldText` is the empty text here. */
  method StringReplace(buf: array<char>, oldText: string, newText: string, newBufferLen: nat) returns (r: Option<nat>)
    requires Plain(oldText) && Plain(newText) && Terminated(buf[..], 0) && newBufferLen <= buf.Length < SIZE_LIMIT
    modifies buf
    ensures oldText == "" ==> r == Some(0) && buf[..] == old(buf[..])
    ensures oldText != "" ==> (r.None? <==> CheckFails(CString(old(buf[..]), 0), oldText, newText, newBufferLen))
    ensures r.None? ==> buf[..] == old(buf[..])
    ensures oldText != "" && r.Some? ==>
      var s := CString(old(buf[..]), 0);
      var result := ReplaceAll(s, oldText, newText);
      if Occurrences(s, oldText) > 0 && |result| + 1 <= newBufferLen then
        && r.value == Occurrences(s, oldText)
        && Terminated(buf[..], 0) && CString(buf[..], 0) == result
        && forall i :: Max(|s|, |result|) < i < buf.Length ==> buf[i] == old(buf[i])
      else r.value == 0 && buf[..] == old(buf[..])
  {
    hide Find, ReplaceAll, Occurrences, StrStr, NewLength, SizeT;
    if oldText == "" {
      return Some(0);
    }
    var count := CountMatches(buf[..], oldText);
    ghost var s := CString(buf[..], 0);
    if count > 0 {
      ReplacedLength(s, oldText, newText);
      var oldLength := StrLen(buf[..], 0);
      NewLengthWraps(oldLength, |newText|, |oldText|, count);
      if NewLength(oldLength, |newText|, |oldText|, count) > newBufferLen {
        SizeTAtMost(oldLength + (|newText| - |oldText|) * count + 1);
        return Some(0);
      }
      if oldLength + (|newText| - |oldText|) * count + 1 > newBufferLen {
        return None;
      }
      ReplaceInPlace(buf, oldText, newText);
    }
    r := Some(count);
  }

  lemma SizeTAtMost(x: nat)
    ensures SizeT(x) <= x
  {
  }

  lemma WrappedAdd(a: nat, d: int)
    requires 0 <= a + d < SIZE_LIMIT
    ensures SizeT(a + SizeT(d)) == a + d
  {
    var k, sum := d / SIZE_LIMIT, a + SizeT(d);
    SameResidue(SizeT(sum), a + d, -(k + sum / SIZE_LIMIT));
    assert SizeT(a + d) == a + d;
  }

  /** With a longer or equal replacement the string never shrinks. */
  lemma NeverShrinks(s: string, p: string, r: string)
    requires p != "" && |p| <= |r|
    ensures |s| <= |ReplaceAll(s, p, r)|
  {
    ReplacedLength(s, p, r);
    NonNegative(|r| - |p|, Occurrences(s, p));
  }

  lemma NonNegative(a: nat, b: nat)
    ensures a * b >= 0
  {
  }

  lemma StartHolding(b: seq<char>, n: nat)
    requires Terminated(b, 0)
    ensures Holding(b, "", CString(b, 0), StrLen(b, 0), n)
  {
    assert "" + CString(b, 0) == b[..StrLen(b, 0)];
  }

  lemma HoldingString(b: seq<char>, done: string, rest: string, end: nat, n: nat)
    requires Holding(b, done, rest, end, n)
    ensures Terminated(b, |done|) && CString(b, |done|) == rest && StrLen(b, |done|) == |rest|
    ensures Terminated(b, 0) && CString(b, 0) == done + rest
  {
    var len := |done| + |rest|;
    assert b[|done|..len] == b[..len][|done|..] == rest;
    assert b[0..len] == done + rest;
    CStringIs(b, |done|, rest);
    CStringIs(b, 0, done + rest);
  }

  lemma NonEmptyWhenFound(s: string, p: string)
    requires p != "" && Occurrences(s, p) > 0
    ensures |s| > 0
  {
    NoOccurrenceInEmpty(p);
  }

  lemma HoldingMoves(b: seq<char>, done: string, rest: string, end: nat, n: nat)
    requires Holding(b, done, rest, end, n)
    ensures Holding(b, done + rest, "", end, n)
  {
    assert (done + rest) + "" == done + rest;
  }

  /** One replacement keeps the room it needs and the meaning of the whole. */
  lemma StepFits(done: string, rest: string, p: string, r: string, i: nat, result: string)
    requires p != "" && Find(rest, p, 0) == Some(i) && result == done + ReplaceAll(rest, p, r)
    ensures MatchesAt(rest, p, i) && result == (done + rest[..i] + r) + ReplaceAll(rest[i + |p|..], p, r)
    ensures |p| <= |r| ==> |done| + |rest| - |p| + |r| <= |result|
  {
    GrowingStep(done, rest, p, r, i);
    if |p| <= |r| {
      NeverShrinks(rest[i + |p|..], p, r);
    }
  }

  /** Part of the way: `done` is final, `rest` still to be searched, together the current string. */
  ghost predicate Midway(b: seq<char>, done: string, rest: string, len: nat, end: nat, p: string, r: string,
                         result: string)
    requires p != ""
  {
    && Holding(b, done, rest, end, |p|) && len == |done| + |rest|
    && result == done + ReplaceAll(rest, p, r)
    && (if |r| < |p| then len <= end else end <= len <= |result|)
  }

  /** One match replaced in place: its tail moved, the text copied over it, the end rewritten. */
  method ReplaceNext(buf: array<char>, oldText: string, newText: string, target: nat, len: nat,
                     ghost done: string, ghost rest: string, ghost end: nat, ghost result: string)
    returns (start: nat, newLength: nat, ghost done': string, ghost rest': string)
    requires oldText != "" && Plain(newText) && |result| < buf.Length < SIZE_LIMIT
    requires Midway(buf[..], done, rest, len, end, oldText, newText, result)
    requires target >= |done| && Find(rest, oldText, 0) == Some(target - |done|)
    modifies buf
    ensures Midway(buf[..], done', rest', newLength, end, oldText, newText, result) && start == |done'|
            && |rest'| < |rest|
    ensures forall i :: Max(len, |result|) < i < buf.Length ==> buf[i] == old(buf[i])
  {
    hide Find, ReplaceAll, Holding, OneReplaced, SizeT, MatchesAt, Plain;
    ghost var i, b := target - |done|, buf[..];
    StepFits(done, rest, oldText, newText, i, result);
    HoldingBounds(b, done, rest, end, |oldText|, oldText, i);
    HoldingStep(b, done, rest, end, oldText, newText, i);
    ReplacedFrame(b, target, |oldText|, newText, len);
    ReplaceOne(buf, target, |oldText|, newText, len);
    done', rest' := done + rest[..i] + newText, rest[i + |oldText|..];
    if |oldText| <= |newText| {
      NeverShrinks(rest', oldText, newText);
    }
    start := target + |newText|;
    WrappedAdd(len, |newText| - |oldText|);
    newLength := SizeT(len + SizeT(|newText| - |oldText|));
  }

  /** The inner loop of the second pass: every match from `from` on, in a string of length `len`.
      `finished` says that the scan is already beyond the result. */
  method ReplaceFrom(buf: array<char>, oldText: string, newText: string, from: nat, len: nat,
                     ghost s: string, ghost result: string, ghost end: nat, ghost finished: bool)
    returns (start: nat, oldLength: nat)
    requires oldText != "" && Plain(newText) && |result| < buf.Length < SIZE_LIMIT
    requires result == ReplaceAll(s, oldText, newText)
    requires if finished then |result| < from <= end && Holding(buf[..], result, "", end, |oldText|)
             else from == 0 && len == end == |s| && Holding(buf[..], "", s, end, |oldText|)
    requires Terminated(buf[..], from)
    modifies buf
    ensures forall i :: Max(|s|, |result|) < i < buf.Length ==> buf[i] == old(buf[i])
    ensures Holding(buf[..], result, "", end, |oldText|) && Terminated(buf[..], start)
    ensures finished ==> start == from
    ensures !finished ==> start + StrLen(buf[..], start) == |result|
  {
    hide Find, ReplaceAll, Holding, Midway, CString, StrStr, Plain;
    start, oldLength := from, len;
    ghost var done, rest := "", s;
    if finished {
      // beyond the new terminator: no stale piece is long enough to match
      StalePiece(buf[..], result, start, end, |oldText|, oldText);
    } else {
      MidwayStart(buf[..], s, end, oldText, newText, result);
    }
    var target := StrStr(buf[..], start, oldText);
    while target.Some?
      invariant Terminated(buf[..], start)
      invariant finished ==> target == None && start == from && buf[..] == old(buf[..])
      invariant !finished ==> start == |done| && Midway(buf[..], done, rest, oldLength, end, oldText, newText, result)
      invariant !finished ==> oldLength <= Max(|s|, |result|)
      invariant target == StrStr(buf[..], start, oldText)
      invariant forall i :: Max(|s|, |result|) < i < buf.Length ==> buf[i] == old(buf[i])
      decreases |rest|
    {
      MidwayFind(buf[..], done, rest, oldLength, end, oldText, newText, result);
      start, oldLength, done, rest :=
        ReplaceNext(buf, oldText, newText, target.value, oldLength, done, rest, end, result);
      MidwayFind(buf[..], done, rest, oldLength, end, oldText, newText, result);
      target := StrStr(buf[..], start, oldText);
    }
    if !finished {
      MidwayEnd(buf[..], done, rest, oldLength, end, oldText, newText, result);
    }
  }

  lemma MidwayStart(b: seq<char>, s: string, end: nat, p: string, r: string, result: string)
    requires p != "" && end == |s| && Holding(b, "", s, end, |p|) && result == ReplaceAll(s, p, r)
    ensures Midway(b, "", s, |s|, end, p, r, result)
  {
    hide Holding, ReplaceAll;
    assert "" + ReplaceAll(s, p, r) == result;
    if |p| <= |r| {
      NeverShrinks(s, p, r);
    }
  }

  lemma MidwayFind(b: seq<char>, done: string, rest: string, len: nat, end: nat, p: string, r: string, result: string)
    requires p != "" && Midway(b, done, rest, len, end, p, r, result)
    ensures Terminated(b, |done|)
            && StrStr(b, |done|, p) == match Find(rest, p, 0) case None => None case Some(i) => Some(|done| + i)
    ensures len <= Max(end, |result|)
  {
    hide Holding, ReplaceAll, Find, CString;
    HoldingString(b, done, rest, end, |p|);
    StrStrIs(b, |done|, rest, p);
  }

  lemma MidwayEnd(b: seq<char>, done: string, rest: string, len: nat, end: nat, p: string, r: string, result: string)
    requires p != "" && Midway(b, done, rest, len, end, p, r, result)
    requires Terminated(b, |done|) && StrStr(b, |done|, p) == None
    ensures Holding(b, result, "", end, |p|) && |done| + StrLen(b, |done|) == |result|
  {
    hide Holding, ReplaceAll, Find, CString;
    HoldingString(b, done, rest, end, |p|);
    StrStrIs(b, |done|, rest, p);
    NoMatchLeft(rest, p, r);
    HoldingMoves(b, done, rest, end, |p|);
  }

  /** The second pass.  The end it scans to is the old string's, even after the string shrank. */
  method ReplaceInPlace(buf: array<char>, oldText: string, newText: string)
    requires oldText != "" && Plain(oldText) && Plain(newText) && Terminated(buf[..], 0) && buf.Length < SIZE_LIMIT
    requires Occurrences(CString(buf[..], 0), oldText) > 0
    requires |ReplaceAll(CString(buf[..], 0), oldText, newText)| < buf.Length
    modifies buf
    ensures var s := CString(old(buf[..]), 0);
            var result := ReplaceAll(s, oldText, newText);
            && Terminated(buf[..], 0) && CString(buf[..], 0) == result
            && forall i :: Max(|s|, |result|) < i < buf.Length ==> buf[i] == old(buf[i])
  {
    hide Find, ReplaceAll, Occurrences, Holding, CString, StrStr, Plain;
    ghost var s := CString(buf[..], 0);
    ghost var result := ReplaceAll(s, oldText, newText);
    ghost var n := |oldText|;
    NonEmptyWhenFound(s, oldText);
    StartHolding(buf[..], n);
    HoldingString(buf[..], "", s, StrLen(buf[..], 0), n);
    var oldLength := StrLen(buf[..], 0);
    var start, end := 0, oldLength;
    ghost var finished := false;
    while start < end
      invariant if finished then start > |result| && Holding(buf[..], result, "", end, n)
                else start == 0 && oldLength == end == |s| && Holding(buf[..], "", s, end, n)
      invariant forall i :: Max(|s|, |result|) < i < buf.Length ==> buf[i] == old(buf[i])
      decreases !finished, end - start
    {
      if finished {
        StalePiece(buf[..], result, start, end, n, oldText);
      } else {
        HoldingString(buf[..], "", s, end, n);
      }
      start, oldLength := ReplaceFrom(buf, oldText, newText, start, oldLength, s, result, end, finished);
      finished := true;
      start := start + StrLen(buf[..], start) + 1;
    }
    HoldingString(buf[..], result, "", end, n);
    assert result + "" == result;
  }

  lemma StalePiece(b: seq<char>, result: string, p: nat, end: nat, n: nat, pattern: string)
    requires Holding(b, result, "", end, n) && |result| < p <= end && |pattern| == n
    ensures Terminated(b, p) && StrStr(b, p, pattern) == None && p + StrLen(b, p) <= end
  {
    assert |result| + |""| == |result|;
    StaleHasNoMatch(b, p, n, end, pattern);
  }

  lemma StrStrIs(b: seq<char>, from: nat, s: string, p: string)
    requires Terminated(b, from) && CString(b, from) == s
    ensures StrStr(b, from, p) == match Find(s, p, 0) case None => None case Some(i) => Some(from + i)
  {
  }

  lemma HoldingBounds(b: seq<char>, done: string, rest: string, end: nat, n: nat, p: string, i: nat)
    requires Holding(b, done, rest, end, n) && MatchesAt(rest, p, i)
    ensures |done| + i + |p| <= |done| + |rest| < |b|
  {
  }

  lemma ReplacedFrame(b: seq<char>, target: nat, n: nat, r: string, len: nat)
    requires target + n <= len < |b| && len - n + |r| < |b|
    ensures var c := OneReplaced(b, target, n, r, len);
            |c| == |b| && forall q :: len - n + |r| < q < |b| ==> c[q] == b[q]
  {
  }
}
