/** Scanning short options with argv permuted as it is scanned: option elements and their arguments
    move to the front, operands to the back.  Covers option strings that ask for the default
    (permuting) order and do not use the "W;" long-option convention. */
module Getopt {
  import opened Common

  // ----- what a command line means

  datatype Kind = Unknown | Flag | Required | Optional

  function Index(s: string, c: char): Option<nat>
    ensures Index(s, c).Some? ==> Index(s, c).value < |s|
  {
    if s == "" then None
    else if s[0] == c then Some(0)
    else match Index(s[1..], c) case None => None case Some(i) => Some(i + 1)
  }

  function CharAt(s: string, i: nat): char { if i < |s| then s[i] else '\0' }

  function KindOf(optstring: string, c: char): Kind {
    match Index(optstring, c)
    case None => Unknown
    case Some(i) =>
      if c == ':' then Unknown
      else if CharAt(optstring, i + 1) != ':' then Flag
      else if CharAt(optstring, i + 2) == ':' then Optional else Required
  }

  /** The kind of an option character, by what follows its first occurrence in the option string. */
  lemma {:induction false} KindIs(optstring: string, c: char, before: string, after: string)
    requires optstring == before + [c] + after && c !in before && c != ':'
    ensures KindOf(optstring, c) ==
            if |after| == 0 || after[0] != ':' then Flag
            else if |after| == 1 || after[1] != ':' then Required else Optional
  {
    FirstIndex(before, c, after);
    assert forall i :: 0 <= i < |after| ==> optstring[|before| + 1 + i] == after[i];
  }

  lemma {:induction false} FirstIndex(before: string, c: char, after: string)
    requires c !in before
    ensures Index(before + [c] + after, c) == Some(|before|)
  {
    if before != "" {
      FirstIndex(before[1..], c, after);
      assert (before + [c] + after)[1..] == before[1..] + [c] + after;
    }
  }

  /** Any other character, and the colon itself, is no option. */
  lemma {:induction false} NoKind(optstring: string, c: char)
    ensures c == ':' || c !in optstring ==> KindOf(optstring, c) == Unknown
  {
    if c !in optstring { NoIndex(optstring, c); }
  }

  lemma {:induction false} NoIndex(s: string, c: char)
    requires c !in s
    ensures Index(s, c) == None
  {
    if s != "" {
      NoIndex(s[1..], c);
    }
  }

  /** What one call returns: an option character or '?' or ':', and the option's argument. */
  datatype Event = Event(code: char, arg: Option<string>)

  predicate IsOperand(a: string) { CharAt(a, 0) != '-' || CharAt(a, 1) == '\0' }

  datatype Cluster = Cluster(events: seq<Event>, takesNext: bool)

  /** The option characters left in one element, before the elements `rest`. */
  function ReadCluster(cs: string, rest: seq<string>, optstring: string): Cluster {
    if cs == "" then Cluster([], false)
    else
      var c, t := cs[0], cs[1..];
      match KindOf(optstring, c)
      case Unknown => var more := ReadCluster(t, rest, optstring); more.(events := [Event('?', None)] + more.events)
      case Flag => var more := ReadCluster(t, rest, optstring); more.(events := [Event(c, None)] + more.events)
      case Optional => Cluster([Event(c, if t == "" then None else Some(t))], false)
      case Required =>
        if t != "" then Cluster([Event(c, Some(t))], false)
        else if rest == [] then Cluster([Event(if CharAt(optstring, 0) == ':' then ':' else '?', None)], false)
        else Cluster([Event(c, Some(rest[0]))], true)
  }

  datatype Parsed = Parsed(events: seq<Event>, options: seq<string>, operands: seq<string>)

  function WithOptions(events: seq<Event>, options: seq<string>, p: Parsed): Parsed {
    Parsed(events + p.events, options + p.options, p.operands)
  }

  /** A whole command line, left to right, with nothing moved. */
  function Scan(args: seq<string>, optstring: string): Parsed {
    if args == [] then Parsed([], [], [])
    else if args[0] == "--" then Parsed([], args[..1], args[1..])
    else if IsOperand(args[0]) then
      var p := Scan(args[1..], optstring); p.(operands := args[..1] + p.operands)
    else
      var cluster := ReadCluster(args[0][1..], args[1..], optstring);
      WithOptions(cluster.events, args[..Used(args, optstring)], Scan(args[Used(args, optstring)..], optstring))
  }

  lemma {:induction false} TakesNextHasNext(cs: string, rest: seq<string>, optstring: string)
    ensures ReadCluster(cs, rest, optstring).takesNext ==> rest != []
  {
    hide KindOf;
    if cs != "" {
      TakesNextHasNext(cs[1..], rest, optstring);
    }
  }

  /** How many elements an option element and its argument take. */
  function Used(args: seq<string>, optstring: string): (n: nat)
    requires args != [] && !IsOperand(args[0])
    ensures 1 <= n <= |args|
  {
    TakesNextHasNext(args[0][1..], args[1..], optstring);
    if ReadCluster(args[0][1..], args[1..], optstring).takesNext then 2 else 1
  }

  lemma {:induction false} ScanStep(args: seq<string>, optstring: string)
    requires args != []
    ensures args[0] == "--" ==> Scan(args, optstring) == Parsed([], args[..1], args[1..])
    ensures args[0] != "--" && IsOperand(args[0]) ==>
      Scan(args, optstring) == Scan(args[1..], optstring).(operands := args[..1] + Scan(args[1..], optstring).operands)
    ensures args[0] != "--" && !IsOperand(args[0]) ==> var n := Used(args, optstring);
      Scan(args, optstring) == WithOptions(ReadCluster(args[0][1..], args[1..], optstring).events, args[..n],
                                           Scan(args[n..], optstring))
  {
  }

  predicate Conserved(args: seq<string>, p: Parsed) {
    |p.options| + |p.operands| == |args| && multiset(p.options) + multiset(p.operands) == multiset(args)
  }

  lemma Taken(args: seq<string>, n: nat, q: Parsed, events: seq<Event>)
    requires n <= |args| && Conserved(args[n..], q)
    ensures Conserved(args, WithOptions(events, args[..n], q))
    ensures Conserved(args, q.(operands := args[..n] + q.operands))
  {
    assert args == args[..n] + args[n..];
  }

  /** Elements are neither lost nor invented. */
  lemma {:induction false} ScanConserves(args: seq<string>, optstring: string)
    ensures Conserved(args, Scan(args, optstring))
  {
    if args != [] {
      ScanStep(args, optstring);
      hide Scan, IsOperand, KindOf, ReadCluster, Conserved, WithOptions;
      if args[0] == "--" {
        NothingTaken(args);
      } else if IsOperand(args[0]) {
        ScanConserves(args[1..], optstring);
        Taken(args, 1, Scan(args[1..], optstring), []);
      } else {
        var n := Used(args, optstring);
        ScanConserves(args[n..], optstring);
        Taken(args, n, Scan(args[n..], optstring), ReadCluster(args[0][1..], args[1..], optstring).events);
      }
    }
  }

  lemma NothingTaken(args: seq<string>)
    requires args != []
    ensures Conserved(args, Parsed([], args[..1], args[1..]))
  {
    assert args == args[..1] + args[1..];
  }

  // ----- moving blocks

  function Swapped<T>(b: seq<T>, i: nat, j: nat, len: nat): seq<T>
    requires i + len <= j && j + len <= |b|
  {
    seq(|b|, x requires 0 <= x < |b| =>
      if i <= x < i + len then b[x - i + j] else if j <= x < j + len then b[x - j + i] else b[x])
  }

  method SwapBlocks<T>(a: array<T>, i: nat, j: nat, len: nat)
    requires i + len <= j && j + len <= a.Length
    modifies a
    ensures a[..] == Swapped(old(a[..]), i, j, len)
  {
    for k := 0 to len
      invariant forall x :: i <= x < i + k ==> a[x] == old(a[x + (j - i)])
      invariant forall x :: j <= x < j + k ==> a[x] == old(a[x - (j - i)])
      invariant forall x :: 0 <= x < a.Length && !(i <= x < i + k) && !(j <= x < j + k) ==> a[x] == old(a[x])
    {
      a[i + k], a[j + k] := a[j + k], a[i + k];
    }
    ghost var want := Swapped(old(a[..]), i, j, len);
    assert forall x :: 0 <= x < a.Length ==> a[x] == want[x];
  }

  function BlocksExchanged<T>(b: seq<T>, first: nat, last: nat, end: nat): seq<T>
    requires first <= last <= end <= |b|
  {
    b[..first] + b[last..end] + b[first..last] + b[end..]
  }

  /** Exchanges two adjacent blocks of any lengths; both keep their order. */
  method Exchange<T>(a: array<T>, first: nat, last: nat, end: nat)
    requires first <= last <= end <= a.Length
    modifies a
    ensures a[..] == BlocksExchanged(old(a[..]), first, last, end)
  {
    hide Rotating, Swapped;
    var bottom, middle, top := first, last, end;
    ghost var before := a[..];
    Whole(before, first, last, end);
    while top > middle && middle > bottom
      invariant first <= bottom <= middle <= top <= end
      invariant Rotating(before, a[..], first, bottom, middle, top, end, last)
      decreases top - bottom
    {
      ghost var b := a[..];
      if top - middle > middle - bottom {
        var len := middle - bottom;
        TopPart(before, b, first, bottom, middle, top, end, last);
        SwapBlocks(a, bottom, top - len, len);
        top := top - len;
      } else {
        var len := top - middle;
        BottomPart(before, b, first, bottom, middle, top, end, last);
        SwapBlocks(a, bottom, middle, len);
        bottom := bottom + len;
      }
    }
    Rotated(before, a[..], first, bottom, middle, top, end, last);
  }

  /** The loop's invariant: the two blocks are each other's way round except for what still lies
      between `bottom` and `top`. */
  ghost predicate Rotating<T>(before: seq<T>, a: seq<T>, first: nat, bottom: nat, middle: nat, top: nat, end: nat,
                              last: nat)
  {
    && first <= bottom <= middle <= top <= end <= |a| == |before| && first <= last <= end
    && a[..first] == before[..first] && a[end..] == before[end..]
    && a[first..bottom] + a[middle..top] + a[bottom..middle] + a[top..end] == before[last..end] + before[first..last]
  }

  lemma Whole<T>(a: seq<T>, first: nat, last: nat, end: nat)
    requires first <= last <= end <= |a|
    ensures Rotating(a, a, first, first, last, end, end, last)
  {
    assert a[first..first] == [] && a[end..end] == [];
  }

  lemma Rotated<T>(before: seq<T>, a: seq<T>, first: nat, bottom: nat, middle: nat, top: nat, end: nat, last: nat)
    requires Rotating(before, a, first, bottom, middle, top, end, last) && (top == middle || middle == bottom)
    ensures a == before[..first] + before[last..end] + before[first..last] + before[end..]
  {
    assert a[first..bottom] + a[middle..top] + a[bottom..middle] + a[top..end] == a[first..end];
    assert a == a[..first] + a[first..end] + a[end..];
  }

  lemma TopSlices<T>(b: seq<T>, first: nat, bottom: nat, middle: nat, top: nat, end: nat)
    requires first <= bottom <= middle <= top <= end <= |b| && top - middle > middle - bottom
    ensures var len := middle - bottom; var t := top - len; var c := Swapped(b, bottom, t, len);
            && |c| == |b| && c[..first] == b[..first] && c[first..bottom] == b[first..bottom]
            && c[bottom..middle] == b[t..top]
            && c[middle..t] == b[middle..t] && c[t..end] == b[bottom..middle] + b[top..end] && c[end..] == b[end..]
  {
    hide Swapped;
    var len := middle - bottom;
    var t := top - len;
    var c := Swapped(b, bottom, t, len);
    SwappedAt(b, c, bottom, t, len);
    assert c[..first] == b[..first];
    assert c[first..bottom] == b[first..bottom];
    assert c[middle..t] == b[middle..t];
    assert c[end..] == b[end..];
    SliceIs(c, bottom, b[t..top]);
    var want := b[bottom..middle] + b[top..end];
    forall k | 0 <= k < |want| ensures c[t + k] == want[k] {
      if k >= len {
        assert want[k] == b[top..end][k - len];
      }
    }
    SliceIs(c, t, want);
  }

  lemma BottomSlices<T>(b: seq<T>, first: nat, bottom: nat, middle: nat, top: nat, end: nat)
    requires first <= bottom <= middle <= top <= end <= |b| && top - middle <= middle - bottom
    ensures var len := top - middle; var m := bottom + len; var c := Swapped(b, bottom, middle, len);
            && |c| == |b| && c[..first] == b[..first] && c[first..m] == b[first..bottom] + b[middle..top]
            && c[m..middle] == b[m..middle]
            && c[middle..top] == b[bottom..m] && c[top..end] == b[top..end] && c[end..] == b[end..]
  {
    hide Swapped;
    var len := top - middle;
    var m := bottom + len;
    var c := Swapped(b, bottom, middle, len);
    SwappedAt(b, c, bottom, middle, len);
    assert c[..first] == b[..first];
    assert c[m..middle] == b[m..middle];
    assert c[top..end] == b[top..end];
    assert c[end..] == b[end..];
    SliceIs(c, middle, b[bottom..m]);
    var want := b[first..bottom] + b[middle..top];
    forall k | 0 <= k < |want| ensures c[first + k] == want[k] {
      if k >= bottom - first {
        assert want[k] == b[middle..top][k - (bottom - first)];
      }
    }
    SliceIs(c, first, want);
  }

  lemma SwappedAt<T>(b: seq<T>, c: seq<T>, i: nat, j: nat, len: nat)
    requires i + len <= j && j + len <= |b| && c == Swapped(b, i, j, len)
    ensures |c| == |b|
    ensures forall x {:trigger c[x]} :: 0 <= x < |b| ==>
      c[x] == if i <= x < i + len then b[x - i + j] else if j <= x < j + len then b[x - j + i] else b[x]
  {
  }

  lemma SliceIs<T>(c: seq<T>, from: nat, want: seq<T>)
    requires from + |want| <= |c| && forall k :: 0 <= k < |want| ==> c[from + k] == want[k]
    ensures c[from..from + |want|] == want
  {
  }

  lemma TopPart<T>(before: seq<T>, b: seq<T>, first: nat, bottom: nat, middle: nat, top: nat, end: nat, last: nat)
    requires Rotating(before, b, first, bottom, middle, top, end, last) && top - middle > middle - bottom
    ensures var len := middle - bottom;
            Rotating(before, Swapped(b, bottom, top - len, len), first, bottom, middle, top - len, end, last)
  {
    var t := top - (middle - bottom);
    TopSlices(b, first, bottom, middle, top, end);
    hide Swapped;
    assert b[middle..top] == b[middle..t] + b[t..top];
    Reassociate(b[first..bottom], b[middle..t], b[t..top], b[bottom..middle], b[top..end]);
  }

  lemma BottomPart<T>(before: seq<T>, b: seq<T>, first: nat, bottom: nat, middle: nat, top: nat, end: nat, last: nat)
    requires Rotating(before, b, first, bottom, middle, top, end, last) && top - middle <= middle - bottom
    ensures var len := top - middle;
            Rotating(before, Swapped(b, bottom, middle, len), first, bottom + len, middle, top, end, last)
  {
    var m := bottom + (top - middle);
    BottomSlices(b, first, bottom, middle, top, end);
    hide Swapped;
    assert b[bottom..middle] == b[bottom..m] + b[m..middle];
    Reassociate(b[first..bottom] + b[middle..top], b[bottom..m], b[m..middle], [], b[top..end]);
    assert b[first..bottom] + b[middle..top] + (b[bottom..m] + b[m..middle]) + [] + b[top..end]
        == b[first..bottom] + b[middle..top] + b[bottom..middle] + b[top..end];
    assert b[first..bottom] + b[middle..top] + b[bottom..m] + b[m..middle] + ([] + b[top..end])
        == (b[first..bottom] + b[middle..top]) + b[bottom..m] + b[m..middle] + b[top..end];
  }

  lemma Reassociate<T>(p: seq<T>, x: seq<T>, y: seq<T>, z: seq<T>, q: seq<T>)
    ensures p + x + y + (z + q) == p + (x + y) + z + q
  {
  }

  // ----- between two calls

  /** What is left to parse: the rest of the element in progress (`cs`), then the elements after it. */
  function Progress(rest: seq<string>, cs: string, optstring: string): Parsed
    requires cs != "" ==> rest != []
  {
    if cs == "" then Scan(rest, optstring)
    else
      var n := Consumed(rest, cs, optstring);
      WithOptions(ReadCluster(cs, rest[1..], optstring).events, rest[..n], Scan(rest[n..], optstring))
  }

  function Consumed(rest: seq<string>, cs: string, optstring: string): (n: nat)
    requires rest != []
    ensures 1 <= n <= |rest|
  {
    TakesNextHasNext(cs, rest[1..], optstring);
    if ReadCluster(cs, rest[1..], optstring).takesNext then 2 else 1
  }

  /** `a` holds, after the program name: options already in place, skipped operands, options read
      since, and what is still to be read; together they mean what the original command line means. */
  ghost predicate Scanned(original: seq<string>, optstring: string, a: seq<string>, first: nat, last: nat, optind: nat,
                          cs: string, emitted: seq<Event>)
  {
    && |a| == |original| && 1 <= first <= last <= optind <= |a| && a[0] == original[0]
    && (cs != "" ==> optind < |a|)
    && Scan(original[1..], optstring)
       == Combine(emitted, a[1..first] + a[last..optind], a[first..last], Progress(a[optind..], cs, optstring))
  }

  function Combine(emitted: seq<Event>, ahead: seq<string>, skipped: seq<string>, p: Parsed): Parsed {
    Parsed(emitted + p.events, ahead + p.options, skipped + p.operands)
  }

  lemma CombineTake(emitted: seq<Event>, ahead: seq<string>, skipped: seq<string>, events: seq<Event>, x: seq<string>,
                    q: Parsed)
    ensures Combine(emitted, ahead, skipped, WithOptions(events, x, q)) ==
            Combine(emitted + events, ahead + x, skipped, q)
  {
    assert emitted + (events + q.events) == (emitted + events) + q.events;
    assert ahead + (x + q.options) == (ahead + x) + q.options;
  }

  lemma CombineSkip(emitted: seq<Event>, ahead: seq<string>, skipped: seq<string>, x: seq<string>, q: Parsed)
    ensures Combine(emitted, ahead, skipped, q.(operands := x + q.operands)) == Combine(emitted, ahead, skipped + x, q)
  {
    assert skipped + (x + q.operands) == (skipped + x) + q.operands;
  }

  lemma {:induction false} ScannedStart(a: seq<string>, optstring: string)
    requires a != []
    ensures Scanned(a, optstring, a, 1, 1, 1, "", [])
  {
    var p := Scan(a[1..], optstring);
    assert [] + p.events == p.events && a[1..1] + a[1..1] + p.options == p.options
           && a[1..1] + p.operands == p.operands;
  }

  /** Options read since the skipped operands move in front of them. */
  lemma {:induction false} ScannedExchange(original: seq<string>, optstring: string, a: seq<string>, first: nat,
                                           last: nat, optind: nat, emitted: seq<Event>)
    requires Scanned(original, optstring, a, first, last, optind, "", emitted)
    ensures var n := first + (optind - last);
            Scanned(original, optstring, BlocksExchanged(a, first, last, optind), n, optind, optind, "", emitted)
  {
    hide Scan, BlocksExchanged, Combine;
    ExchangeSlices(a, first, last, optind);
    var n := first + (optind - last);
    var b := BlocksExchanged(a, first, last, optind);
    assert b[1..n] + b[optind..optind] == a[1..first] + a[last..optind];
  }

  lemma ExchangeSlices(a: seq<string>, first: nat, last: nat, optind: nat)
    requires 1 <= first <= last <= optind <= |a|
    ensures var n := first + (optind - last); var b := BlocksExchanged(a, first, last, optind);
            && |b| == |a| && b[0] == a[0] && b[1..n] == a[1..first] + a[last..optind] && b[n..optind] == a[first..last]
            && b[optind..optind] == [] && b[optind..] == a[optind..]
  {
    BlockSlices(a[..first], a[last..optind], a[first..last], a[optind..]);
  }

  lemma BlockSlices(p: seq<string>, x: seq<string>, y: seq<string>, q: seq<string>)
    ensures var s := p + x + y + q;
            s[..|p|] == p && s[|p|..|p| + |x|] == x && s[|p| + |x|..|p| + |x| + |y|] == y && s[|p| + |x| + |y|..] == q
  {
  }

  /** With no skipped operands, the options read simply join those in place. */
  lemma {:induction false} ScannedJoin(original: seq<string>, optstring: string, a: seq<string>, first: nat,
                                       optind: nat, emitted: seq<Event>)
    requires Scanned(original, optstring, a, first, first, optind, "", emitted)
    ensures Scanned(original, optstring, a, optind, optind, optind, "", emitted)
  {
    assert a[1..optind] + a[optind..optind] == a[1..first] + a[first..optind];
    assert a[optind..optind] == a[first..first] == [];
    hide Scan;
  }

  /** An operand joins the skipped ones. */
  lemma {:induction false} ScannedSkip(original: seq<string>, optstring: string, a: seq<string>, first: nat,
                                       optind: nat, emitted: seq<Event>)
    requires Scanned(original, optstring, a, first, optind, optind, "", emitted)
    requires optind < |a| && IsOperand(a[optind]) && a[optind] != "--"
    ensures Scanned(original, optstring, a, first, optind + 1, optind + 1, "", emitted)
  {
    ScanStep(a[optind..], optstring);
    assert a[optind..][1..] == a[optind + 1..];
    var ahead, x, q := a[1..first] + a[optind..optind], a[optind..][..1], Scan(a[optind + 1..], optstring);
    CombineSkip(emitted, ahead, a[first..optind], x, q);
    assert a[first..optind + 1] == a[first..optind] + x;
    assert a[optind..optind] == a[optind + 1..optind + 1] == [];
    hide Scan, IsOperand, Combine;
  }

  /** An option element is entered after its dash. */
  lemma {:induction false} ScannedEnter(original: seq<string>, optstring: string, a: seq<string>, first: nat,
                                        optind: nat, emitted: seq<Event>)
    requires Scanned(original, optstring, a, first, optind, optind, "", emitted)
    requires optind < |a| && !IsOperand(a[optind]) && a[optind] != "--"
    ensures |a[optind]| > 1 && Scanned(original, optstring, a, first, optind, optind, a[optind][1..], emitted)
  {
    ScanStep(a[optind..], optstring);
    hide Scan;
  }

  /** An event that ends its element, which took `n` elements, moves past them. */
  lemma {:induction false} ScannedWhole(original: seq<string>, optstring: string, a: seq<string>, first: nat, last: nat,
                                        optind: nat, cs: string, emitted: seq<Event>, e: Event, n: nat)
    requires Scanned(original, optstring, a, first, last, optind, cs, emitted) && cs != ""
    requires ReadCluster(cs, a[optind..][1..], optstring) == Cluster([e], n == 2) && 1 <= n <= 2
    ensures optind + n <= |a| && Scanned(original, optstring, a, first, last, optind + n, "", emitted + [e])
  {
    var rest := a[optind..];
    assert n == Consumed(rest, cs, optstring);
    assert rest[n..] == a[optind + n..];
    var ahead, q := a[1..first] + a[last..optind], Scan(rest[n..], optstring);
    CombineTake(emitted, ahead, a[first..last], [e], rest[..n], q);
    AheadTakes(a, first, last, optind, n);
    hide Scan, ReadCluster, Combine, WithOptions;
  }

  lemma AheadTakes(a: seq<string>, first: nat, last: nat, optind: nat, n: nat)
    requires 1 <= first <= last <= optind && optind + n <= |a|
    ensures (a[1..first] + a[last..optind]) + a[optind..][..n] == a[1..first] + a[last..optind + n]
  {
  }

  /** An event inside an element: the rest of the element is next. */
  lemma {:induction false} ScannedInside(original: seq<string>, optstring: string, a: seq<string>, first: nat,
                                         last: nat, optind: nat, cs: string, emitted: seq<Event>, e: Event)
    requires Scanned(original, optstring, a, first, last, optind, cs, emitted) && |cs| > 1
    requires var more := ReadCluster(cs[1..], a[optind..][1..], optstring);
             ReadCluster(cs, a[optind..][1..], optstring) == Cluster([e] + more.events, more.takesNext)
    ensures Scanned(original, optstring, a, first, last, optind, cs[1..], emitted + [e])
  {
    var rest := a[optind..];
    var n := Consumed(rest, cs, optstring);
    assert n == Consumed(rest, cs[1..], optstring);
    var ahead, q := a[1..first] + a[last..optind], Progress(rest, cs[1..], optstring);
    var more := ReadCluster(cs[1..], rest[1..], optstring);
    CombineTake(emitted, ahead, a[first..last], [e], [], q);
    NestedOptions(e, more.events, rest[..n], Scan(rest[n..], optstring));
    assert ahead + [] == ahead;
    hide Scan, ReadCluster, Combine, WithOptions;
  }

  lemma NestedOptions(e: Event, events: seq<Event>, x: seq<string>, p: Parsed)
    ensures WithOptions([e] + events, x, p) == WithOptions([e], [], WithOptions(events, x, p))
  {
    assert [e] + events + p.events == [e] + (events + p.events);
    assert [] + (x + p.options) == x + p.options;
  }

  /** `--` ends the options; everything after it is an operand. */
  lemma {:induction false} ScannedDashes(original: seq<string>, optstring: string, a: seq<string>, first: nat,
                                         optind: nat, emitted: seq<Event>)
    requires Scanned(original, optstring, a, first, optind, optind, "", emitted) && optind < |a| && a[optind] == "--"
    ensures var p := Scan(original[1..], optstring);
            p.events == emitted && p.options == a[1..first] + ["--"] && p.operands == a[first..optind] + a[optind + 1..]
  {
    ScanStep(a[optind..], optstring);
    assert a[optind..][1..] == a[optind + 1..] && a[optind..][..1] == ["--"];
    assert a[optind..optind] == [];
    hide Scan;
  }

  lemma {:induction false} ScannedEnd(original: seq<string>, optstring: string, a: seq<string>, first: nat,
                                      emitted: seq<Event>)
    requires Scanned(original, optstring, a, first, |a|, |a|, "", emitted)
    ensures Scan(original[1..], optstring) == Parsed(emitted, a[1..first], a[first..])
  {
    assert a[|a|..] == [];
  }

  /** Events come out in the order of the command line. */
  lemma ScannedEvents(original: seq<string>, optstring: string, a: seq<string>, first: nat, last: nat, optind: nat,
                      cs: string, emitted: seq<Event>)
    requires Scanned(original, optstring, a, first, last, optind, cs, emitted)
    ensures emitted <= Scan(original[1..], optstring).events
  {
  }

  // ----- the scanner

  /** What the caller finds when the scan ends. */
  ghost predicate Arranged(original: seq<string>, optstring: string, a: seq<string>, optind: nat, emitted: seq<Event>) {
    original != [] && var p := Scan(original[1..], optstring);
    a == original[..1] + p.options + p.operands && optind == 1 + |p.options| && emitted == p.events
  }

  predicate Supported(optstring: string) {
    CharAt(optstring, 0) != '-' && CharAt(optstring, 0) != '+'
    && !exists i :: 0 <= i < |optstring| && optstring[i] == 'W' && CharAt(optstring, i + 1) == ';'
  }

  class Scanner {
    const argv: array<string>
    const optstring: string
    var optind: nat
    var nextchar: string
    var firstNonopt: nat
    var lastNonopt: nat
    var optarg: Option<string>
    ghost const original: seq<string>
    ghost var emitted: seq<Event>

    ghost predicate Valid()
      reads this, argv
    {
      argv.Length > 0 && Scanned(original, optstring, argv[..], firstNonopt, lastNonopt, optind, nextchar, emitted)
    }

    constructor (argv: array<string>, optstring: string)
      requires argv.Length > 0 && Supported(optstring)
      ensures Valid() && this.argv == argv && this.optstring == optstring && original == argv[..] && emitted == []
    {
      this.argv := argv;
      this.optstring := optstring;
      optind := 1;
      nextchar := "";
      firstNonopt := 1;
      lastNonopt := 1;
      optarg := None;
      original := argv[..];
      emitted := [];
      new;
      ScannedStart(argv[..], optstring);
    }

    /** Before the next element: options read since move in front of the operands skipped before
        them, then further operands are skipped. */
    method Advance()
      requires Valid() && nextchar == ""
      modifies this`optind, this`firstNonopt, this`lastNonopt, argv
      ensures Valid() && lastNonopt == optind
      ensures optind < argv.Length ==> argv[optind] == "--" || !IsOperand(argv[optind])
    {
      hide Scanned, BlocksExchanged;
      Cursors();
      if firstNonopt != lastNonopt && lastNonopt != optind {
        ScannedExchange(original, optstring, argv[..], firstNonopt, lastNonopt, optind, emitted);
        Exchange(argv, firstNonopt, lastNonopt, optind);
        firstNonopt := firstNonopt + (optind - lastNonopt);
        lastNonopt := optind;
      } else if lastNonopt != optind {
        ScannedJoin(original, optstring, argv[..], firstNonopt, optind, emitted);
        firstNonopt := optind;
        lastNonopt := optind;
      }
      while optind < argv.Length && (CharAt(argv[optind], 0) != '-' || CharAt(argv[optind], 1) == '\0')
        invariant optind <= argv.Length && lastNonopt <= optind
        invariant Scanned(original, optstring, argv[..], firstNonopt, optind, optind, "", emitted)
      {
        ScannedSkip(original, optstring, argv[..], firstNonopt, optind, emitted);
        optind := optind + 1;
      }
      lastNonopt := optind;
    }

    lemma Cursors()
      requires Valid()
      ensures 1 <= firstNonopt <= lastNonopt <= optind <= argv.Length && (nextchar != "" ==> optind < argv.Length)
    {
    }

    /** One call: the next option, or nothing when only operands are left. */
    method Next() returns (r: Option<Event>)
      requires Valid()
      modifies this, argv
      ensures r.Some? ==>
        Valid() && emitted == old(emitted) + [r.value] && |emitted| <= |Scan(original[1..], optstring).events|
      ensures r.None? ==> emitted == old(emitted) && Arranged(original, optstring, argv[..], optind, emitted)
    {
      hide Scanned, BlocksExchanged, Scan, IsOperand, Arranged;
      optarg := None;
      if nextchar == "" {
        Advance();
        Cursors();
        if optind != argv.Length && argv[optind] == "--" {
          ScannedDashes(original, optstring, argv[..], firstNonopt, optind, emitted);
          DashesArranged(original, optstring, argv[..], firstNonopt, optind, emitted);
          optind := optind + 1;
          if firstNonopt != lastNonopt {
            Exchange(argv, firstNonopt, lastNonopt, optind);
            firstNonopt := firstNonopt + (optind - lastNonopt);
          } else {
            firstNonopt := optind;
          }
          lastNonopt := argv.Length;
          optind := argv.Length;
          if firstNonopt != lastNonopt {
            optind := firstNonopt;
          }
          return None;
        }
        if optind == argv.Length {
          EndArranged(original, optstring, argv[..], firstNonopt, emitted);
          if firstNonopt != lastNonopt {
            optind := firstNonopt;
          }
          return None;
        }
        ScannedEnter(original, optstring, argv[..], firstNonopt, optind, emitted);
        nextchar := argv[optind][1..];
      }
      var e := Decode();
      ScannedEvents(original, optstring, argv[..], firstNonopt, lastNonopt, optind, nextchar, emitted);
      r := Some(e);
    }

    /** The next character of the element in progress. */
    method Decode() returns (e: Event)
      requires Valid() && nextchar != "" && optarg == None
      modifies this`optind, this`nextchar, this`optarg, this`emitted
      ensures Valid() && emitted == old(emitted) + [e]
    {
      hide Scanned, KindOf;
      Cursors();
      ghost var cs, at := nextchar, optind;
      ghost var rest := argv[..][at..][1..];
      assert |rest| == argv.Length - at - 1 && (rest != [] ==> rest[0] == argv[at + 1]);
      DecodeCases(cs, rest, optstring);
      var c := nextchar[0];
      nextchar := nextchar[1..];
      if nextchar == "" {
        optind := optind + 1;
      }
      var kind := KindOf(optstring, c);
      var code := c;
      var n := 1;
      if kind.Unknown? {
        code := '?';
      } else if kind.Optional? {
        if nextchar != "" {
          optarg := Some(nextchar);
          optind := optind + 1;
        } else {
          optarg := None;
        }
        nextchar := "";
      } else if kind.Required? {
        if nextchar != "" {
          optarg := Some(nextchar);
          optind := optind + 1;
        } else if optind == argv.Length {
          code := if CharAt(optstring, 0) == ':' then ':' else '?';
        } else {
          optarg := Some(argv[optind]);
          optind := optind + 1;
          n := 2;
        }
        nextchar := "";
      }
      e := Event(code, optarg);
      if nextchar != "" {
        ScannedInside(original, optstring, argv[..], firstNonopt, lastNonopt, at, cs, emitted, e);
      } else {
        ScannedWhole(original, optstring, argv[..], firstNonopt, lastNonopt, at, cs, emitted, e, n);
      }
      emitted := emitted + [e];
    }
  }

  lemma {:induction false} DecodeCases(cs: string, rest: seq<string>, optstring: string)
    requires cs != ""
    ensures var t, kind, r := cs[1..], KindOf(optstring, cs[0]), ReadCluster(cs, rest, optstring);
            match kind
            case Unknown => var more := ReadCluster(t, rest, optstring);
              r == Cluster([Event('?', None)] + more.events, more.takesNext)
              && (t == "" ==> r == Cluster([Event('?', None)], false))
            case Flag => var more := ReadCluster(t, rest, optstring);
              r == Cluster([Event(cs[0], None)] + more.events, more.takesNext)
              && (t == "" ==> r == Cluster([Event(cs[0], None)], false))
            case Optional => r == Cluster([Event(cs[0], if t == "" then None else Some(t))], false)
            case Required => r == if t != "" then Cluster([Event(cs[0], Some(t))], false)
                                  else if rest == [] then Cluster([Event(if CharAt(optstring, 0) == ':' then ':'
                                    else '?', None)], false)
                                  else Cluster([Event(cs[0], Some(rest[0]))], true)
  {
    hide KindOf;
    if cs[1..] == "" {
      assert ReadCluster(cs[1..], rest, optstring) == Cluster([], false);
    }
  }

  lemma {:induction false} DashesArranged(original: seq<string>, optstring: string, a: seq<string>, first: nat,
                                          optind: nat, emitted: seq<Event>)
    requires Scanned(original, optstring, a, first, optind, optind, "", emitted) && optind < |a| && a[optind] == "--"
    ensures var b := BlocksExchanged(a, first, optind, optind + 1); Arranged(original, optstring, b, first + 1, emitted)
    ensures first == optind ==> Arranged(original, optstring, a, first + 1, emitted)
  {
    ScannedDashes(original, optstring, a, first, optind, emitted);
    hide Scan, Combine, BlocksExchanged;
    LastMoved(original, a, first, optind);
  }

  /** Exchanging the skipped block with the one element after it. */
  lemma {:induction false} LastMoved(original: seq<string>, a: seq<string>, first: nat, at: nat)
    requires 1 <= first <= at < |a| && |original| == |a| && a[0] == original[0]
    ensures BlocksExchanged(a, first, at, at + 1) == original[..1] + (a[1..first] + [a[at]])
            + (a[first..at] + a[at + 1..])
    ensures first == at ==> BlocksExchanged(a, first, at, at + 1) == a
  {
    assert a[..first] == original[..1] + a[1..first];
    assert a[at..at + 1] == [a[at]];
    if first == at {
      assert a == a[..first] + [a[at]] + a[at + 1..];
    }
  }

  lemma {:induction false} EndArranged(original: seq<string>, optstring: string, a: seq<string>, first: nat,
                                       emitted: seq<Event>)
    requires Scanned(original, optstring, a, first, |a|, |a|, "", emitted)
    ensures Arranged(original, optstring, a, first, emitted)
  {
    ScannedEnd(original, optstring, a, first, emitted);
    hide Scan;
    assert a == original[..1] + a[1..first] + a[first..];
  }

  /** Calls until nothing is left: the options come out in order with their arguments, and argv ends
      up with all option elements first and all operands, from `optind` on, in their original order. */
  method ParseAll(argv: array<string>, optstring: string) returns (events: seq<Event>, optind: nat)
    requires argv.Length > 0 && Supported(optstring)
    modifies argv
    ensures var p := Scan(old(argv[..])[1..], optstring);
            && events == p.events && optind == 1 + |p.options|
            && argv[..] == old(argv[..1]) + p.options + p.operands
  {
    hide Scan;
    var scanner := new Scanner(argv, optstring);
    events := [];
    while true
      invariant scanner.Valid() && scanner.argv == argv && scanner.emitted == events && fresh(scanner)
      invariant scanner.original == old(argv[..]) && scanner.optstring == optstring
      decreases |Scan(scanner.original[1..], optstring).events| - |events|
    {
      var r := scanner.Next();
      if r.None? {
        return events, scanner.optind;
      }
      events := events + [r.value];
    }
  }
}
