/** What the texts of a file record mean, told by the texts themselves: escaped percent signs, numbers, truth
    values, partitions, white space and character references. */
module TextForms {
  import opened Common
  import opened XmlEvents
  import opened TextReplacement
  import opened RecordUid
  import F = FileRecord

  // ----- escaped percent signs

  lemma {:induction false} FirstMatch(s: string, p: string, i: nat)
    requires MatchesAt(s, p, i) && forall j :: 0 <= j < i ==> !MatchesAt(s, p, j)
    ensures Find(s, p, 0) == Some(i)
  {
  }

  lemma {:induction false} LaterMatch(s: string, p: string, from: nat)
    requires forall j :: 0 <= j < from ==> !MatchesAt(s, p, j)
    ensures Find(s, p, 0) == Find(s, p, from)
  {
    if Find(s, p, from).Some? { FirstMatch(s, p, Find(s, p, from).value); }
  }

  lemma {:induction false} EscapeAt(s: string, j: nat)
    ensures MatchesAt(s, "%25", j) <==> j + 3 <= |s| && s[j] == '%' && s[j + 1] == '2' && s[j + 2] == '5'
  {
    assert j + 3 <= |s| ==> s[j..j + 3] == [s[j], s[j + 1], s[j + 2]];
  }

  /** Before and at a percent sign that does not begin an escape nothing matches. */
  lemma {:induction false} NoEscape(a: string, b: string)
    requires '%' !in a && !("25" <= b)
    ensures forall j :: 0 <= j <= |a| ==> !MatchesAt(a + "%" + b, "%25", j)
  {
    var s := a + "%" + b;
    assert |b| >= 2 ==> b[..2] == [b[0], b[1]];
    forall j | 0 <= j <= |a| ensures !MatchesAt(s, "%25", j) {
      EscapeAt(s, j);
      assert j < |a| ==> s[j] == a[j];
      assert j == |a| && |b| >= 2 ==> s[j + 1] == b[0] && s[j + 2] == b[1];
    }
  }

  /** Text without a percent sign stays as it is, "%25" becomes a percent sign that is not looked at again, and
      any other percent sign stays. */
  lemma {:induction false} EscapesDecode(a: string, b: string)
    requires '%' !in a
    ensures F.DecodeValue(a) == a
    ensures F.DecodeValue(a + "%25" + b) == a + "%" + F.DecodeValue(b)
    ensures !("25" <= b) ==> F.DecodeValue(a + "%" + b) == a + "%" + F.DecodeValue(b)
  {
    NothingEscaped(a);
    OneEscape(a, b);
    if !("25" <= b) { NotEscaped(a, b); }
  }

  lemma {:induction false} NotEscaped(a: string, b: string)
    requires '%' !in a && !("25" <= b)
    ensures F.DecodeValue(a + "%" + b) == a + "%" + F.DecodeValue(b)
  {
    hide MatchesAt, Find, ReplaceAll;
    NoEscape(a, b);
    AllLater(a + "%", b, "%25", "%");
  }

  /** Where nothing matches before `b`, only `b` changes. */
  lemma {:induction false} AllLater(head: string, b: string, p: string, r: string)
    requires p != "" && forall j :: 0 <= j < |head| ==> !MatchesAt(head + b, p, j)
    ensures ReplaceAll(head + b, p, r) == head + ReplaceAll(b, p, r)
  {
    hide MatchesAt, Find, ReplaceAll;
    var s := head + b;
    LaterMatch(s, p, |head|);
    FindShift(head, b, p, 0);
    ReplaceOnce(s, p, r);
    ReplaceOnce(b, p, r);
    if Find(b, p, 0).Some? {
      var i := Find(b, p, 0).value;
      assert s[..|head| + i] == head + b[..i];
      assert s[|head| + i + |p|..] == b[i + |p|..];
      Regrouped(head, b[..i], r, ReplaceAll(b[i + |p|..], p, r));
    }
  }

  lemma {:induction false} ReplaceOnce(s: string, p: string, r: string)
    requires p != ""
    ensures match Find(s, p, 0)
            case None => ReplaceAll(s, p, r) == s
            case Some(i) => i + |p| <= |s| && ReplaceAll(s, p, r) == s[..i] + r + ReplaceAll(s[i + |p|..], p, r)
  {
    if Find(s, p, 0).Some? { MatchInside(s, p, Find(s, p, 0).value); }
  }

  lemma {:induction false} Regrouped(a: string, b: string, c: string, d: string)
    ensures (a + b) + c + d == a + (b + c + d)
  {
  }

  lemma {:induction false} MatchInside(s: string, p: string, i: nat)
    requires Find(s, p, 0) == Some(i)
    ensures i + |p| <= |s|
  {
  }

  lemma {:induction false} NothingEscaped(a: string)
    requires '%' !in a
    ensures F.DecodeValue(a) == a
  {
    forall j: nat ensures !MatchesAt(a, "%25", j) {
      EscapeAt(a, j);
    }
  }

  lemma {:induction false} OneEscape(a: string, b: string)
    requires '%' !in a
    ensures F.DecodeValue(a + "%25" + b) == a + "%" + F.DecodeValue(b)
  {
    var s := a + "%25" + b;
    forall j | 0 <= j < |a| ensures !MatchesAt(s, "%25", j) {
      EscapeAt(s, j);
      assert s[j] == a[j];
    }
    EscapeAt(s, |a|);
    FirstMatch(s, "%25", |a|);
    hide MatchesAt, Find;
    assert s[..|a|] == a && s[|a| + 3..] == b;
  }

  // ----- white space

  /** Trimming takes the white space off both ends and nothing else. */
  lemma {:induction false} Trimmed(s: string) returns (i: nat, j: nat)
    ensures i <= j <= |s| && Trim(s) == s[i..j]
    ensures (forall k :: 0 <= k < i ==> IsSpace(s[k])) && (forall k :: j <= k < |s| ==> IsSpace(s[k]))
    ensures i < j ==> !IsSpace(s[i]) && !IsSpace(s[j - 1])
  {
    hide IsSpace;
    i := StartTrimmed(s);
    var m := EndTrimmed(s[i..]);
    j := i + m;
    assert s[i..][..m] == s[i..j];
    forall k | j <= k < |s| ensures IsSpace(s[k]) { assert s[i..][k - i] == s[k]; }
    if i < j { assert Trim(s)[m - 1] == s[j - 1]; }
  }

  lemma {:induction false} StartTrimmed(s: string) returns (i: nat)
    ensures i <= |s| && TrimStart(s) == s[i..] && forall k :: 0 <= k < i ==> IsSpace(s[k])
    ensures i < |s| ==> !IsSpace(s[i])
  {
    hide IsSpace;
    if s != [] && IsSpace(s[0]) {
      i := StartTrimmed(s[1..]);
      forall k | 0 <= k <= i ensures IsSpace(s[k]) { assert k > 0 ==> s[k] == s[1..][k - 1]; }
      i := i + 1;
    } else {
      i := 0;
    }
  }

  lemma {:induction false} EndTrimmed(s: string) returns (j: nat)
    ensures j <= |s| && TrimEnd(s) == s[..j] && forall k :: j <= k < |s| ==> IsSpace(s[k])
    ensures j > 0 ==> !IsSpace(s[j - 1])
  {
    hide IsSpace;
    if s != [] && IsSpace(s[|s| - 1]) {
      var t := s[..|s| - 1];
      j := EndTrimmed(t);
      assert t[..j] == s[..j];
      forall k | j <= k < |s| ensures IsSpace(s[k]) { assert k < |t| ==> t[k] == s[k]; }
    } else {
      j := |s|;
    }
  }

  /** The code points with the Unicode property White_Space. */
  const WHITE_SPACE: set<int> :=
    {9, 10, 11, 12, 13, 32, 0x85, 0xA0, 0x1680, 0x2000, 0x2001, 0x2002, 0x2003, 0x2004, 0x2005, 0x2006, 0x2007,
     0x2008, 0x2009, 0x200A, 0x2028, 0x2029, 0x202F, 0x205F, 0x3000}

  lemma WhiteSpaceIs(c: char)
    ensures IsSpace(c) <==> c as int in WHITE_SPACE
    ensures F.AsciiWhitespace([c]) <==> c as int in {9, 10, 12, 13, 32}
  {
    assert F.AsciiWhitespace([c]) <==> [c][0] in {' ', '\t', '\n', '\r', 0xC as char};
  }

  // ----- truth values and partitions

  predicate SameLetter(c: char, d: char) {
    c == d || ('A' <= c <= 'Z' && d as int == c as int + 32) || ('A' <= d <= 'Z' && c as int == d as int + 32)
  }

  /** Equal up to the case of the letters A to Z. */
  predicate SameIgnoringCase(s: string, t: string) {
    |s| == |t| && forall i :: 0 <= i < |s| ==> SameLetter(s[i], t[i])
  }

  lemma {:induction false} LowerIs(s: string, t: string)
    requires forall i :: 0 <= i < |t| ==> !('A' <= t[i] <= 'Z')
    ensures F.Lower(s) == t <==> SameIgnoringCase(s, t)
  {
    if SameIgnoringCase(s, t) { assert F.Lower(s) == t; }
  }

  lemma {:induction false} TruthIs(s: string, otherwise: bool)
    ensures var t := Trim(s);
            F.ParseBool(s, otherwise) == if SameIgnoringCase(t, "true") || t == "1" then true
                                         else if SameIgnoringCase(t, "false") || t == "0" then false else otherwise
  {
    hide Trim;
    var t := Trim(s);
    LowerIs(t, "true");
    LowerIs(t, "false");
    LowerIs(t, "1");
    LowerIs(t, "0");
    assert t == "1" <==> SameIgnoringCase(t, "1");
    assert t == "0" <==> SameIgnoringCase(t, "0");
  }

  lemma {:induction false} PartitionIs(s: string)
    ensures F.ParsePartition(s) == if Trim(s) == "b" || Trim(s) == "B" then 1 else 0
  {
    hide Trim;
    var t := Trim(s);
    LowerIs(t, "b");
    assert SameIgnoringCase(t, "b") <==> t == "b" || t == "B";
  }

  // ----- numbers

  function Power(b: nat, n: nat): nat { if n == 0 then 1 else b * Power(b, n - 1) }

  const DIGITS: string := "0123456789abcdef"
  const CAPITALS: string := "0123456789ABCDEF"

  /** The value of a digit in a radix up to 16. */
  predicate IsDigit(c: char, radix: nat, v: nat) {
    v < radix <= 16 && (c == DIGITS[v] || c == CAPITALS[v])
  }

  lemma DigitIs(c: char, radix: nat, v: nat)
    requires radix <= 16
    ensures IsDigit(c, radix, v) <==> v < radix && HexValue(c) == Some(v)
  {
    if v < 16 {
      assert DIGITS[..] == ['0', '1', '2', '3', '4', '5', '6', '7', '8', '9', 'a', 'b', 'c', 'd', 'e', 'f'];
      assert CAPITALS[..] == ['0', '1', '2', '3', '4', '5', '6', '7', '8', '9', 'A', 'B', 'C', 'D', 'E', 'F'];
      assert DIGITS[v] as int == if v < 10 then 48 + v else 87 + v;
      assert CAPITALS[v] as int == if v < 10 then 48 + v else 55 + v;
    }
  }

  /** The text is these digits, one value each. */
  ghost predicate Spells(s: string, radix: nat, vs: seq<nat>) {
    |s| == |vs| && forall i :: 0 <= i < |vs| ==> IsDigit(s[i], radix, vs[i])
  }

  ghost predicate NoDigit(c: char, radix: nat) { forall v :: !IsDigit(c, radix, v) }

  /** Some character is no digit. */
  ghost predicate NoNumeral(s: string, radix: nat) { exists i :: 0 <= i < |s| && NoDigit(s[i], radix) }

  lemma DigitChars(c: char, radix: nat, v: nat)
    requires IsDigit(c, radix, v)
    ensures c !in "+-xX#"
  {
    DigitIs(c, radix, v);
  }

  /** Each digit times the power of the radix at its place. */
  function Worth(vs: seq<nat>, radix: nat): nat {
    if vs == [] then 0 else vs[0] * Power(radix, |vs| - 1) + Worth(vs[1..], radix)
  }

  lemma {:induction false} WorthLast(vs: seq<nat>, radix: nat, v: nat)
    ensures Worth(vs + [v], radix) == Worth(vs, radix) * radix + v
    decreases |vs|
  {
    if vs == [] {
      assert Power(radix, 0) == 1 && [v][1..] == [];
      assert [] + [v] == [v];
    } else {
      WorthLast(vs[1..], radix, v);
      assert (vs + [v])[1..] == vs[1..] + [v];
      Factored(vs[0], Power(radix, |vs| - 1), radix, Worth(vs[1..], radix));
    }
  }

  lemma Factored(w: nat, p: nat, radix: nat, rest: nat)
    ensures w * (radix * p) + (rest * radix) == (w * p + rest) * radix
  {
    assert w * (radix * p) == (w * p) * radix;
  }

  /** Digits read from the left are worth their places. */
  lemma {:induction false} DigitsWorth(s: string, radix: nat, vs: seq<nat>)
    requires radix <= 16 && Spells(s, radix, vs)
    ensures Digits(s, radix) == Some(Worth(vs, radix))
  {
    hide IsDigit;
    if s != [] {
      var n := |s| - 1;
      DigitsWorth(s[..n], radix, vs[..n]);
      DigitIs(s[n], radix, vs[n]);
      WorthLast(vs[..n], radix, vs[n]);
      assert vs[..n] + [vs[n]] == vs;
    }
  }

  lemma {:induction false} NoDigits(s: string, radix: nat, i: nat)
    requires radix <= 16 && i < |s| && NoDigit(s[i], radix)
    ensures Digits(s, radix) == None
  {
    hide IsDigit;
    if i == |s| - 1 {
      if HexValue(s[i]).Some? { DigitIs(s[i], radix, HexValue(s[i]).value); }
    } else {
      NoDigits(s[..|s| - 1], radix, i);
    }
  }

  /** A number is a run of decimal digits, perhaps after a sign; it counts if it has 64 bits. */
  lemma {:induction false} NumberIs(text: string, sign: string, digits: string, vs: seq<nat>)
    requires sign in {"", "+", "-"} && Trim(text) == sign + digits && vs != [] && Spells(digits, 10, vs)
    ensures var n := if sign == "-" then -(Worth(vs, 10) as int) else Worth(vs, 10);
            ParsedNumber(text) == if -0x8000_0000_0000_0000 <= n < 0x8000_0000_0000_0000 then n else 0
  {
    DigitsWorth(digits, 10, vs);
    DigitChars(digits[0], 10, vs[0]);
    hide Trim, Digits, Worth, IsDigit;
    assert sign != "" ==> (sign + digits)[0] == sign[0] && (sign + digits)[1..] == digits;
    assert sign == "" ==> sign + digits == digits;
  }

  /** Everything else counts as zero. */
  lemma {:induction false} NotANumber(text: string)
    ensures var t := Trim(text);
            var body := if t != "" && (t[0] == '+' || t[0] == '-') then t[1..] else t;
            body == "" || NoNumeral(body, 10) ==> ParsedNumber(text) == 0
  {
    hide Trim, Digits, NoDigit;
    var t := Trim(text);
    var body := if t != "" && (t[0] == '+' || t[0] == '-') then t[1..] else t;
    if NoNumeral(body, 10) {
      var i :| 0 <= i < |body| && NoDigit(body[i], 10);
      NoDigits(body, 10, i);
    }
  }

  // ----- character references

  predicate Scalar(v: int) { 0 <= v < 0xD800 || 0xE000 <= v <= 0x10FFFF }

  /** Five names stand for characters; any other reference that is not by number is refused. */
  lemma {:induction false} ReferencesByName(name: string)
    ensures DecodeGeneralRef("amp") == Some("&") && DecodeGeneralRef("lt") == Some("<")
            && DecodeGeneralRef("gt") == Some(">") && DecodeGeneralRef("quot") == Some("\"")
            && DecodeGeneralRef("apos") == Some("'")
    ensures name !in {"amp", "lt", "gt", "quot", "apos"} && (name == "" || name[0] != '#') ==>
      DecodeGeneralRef(name) == None
  {
    assert "amp"[0] == 'a';
    hide Digits;
  }

  /** The number of a character, in decimal or after an `x` in hexadecimal; a plus sign may stand before it. */
  lemma {:induction false} ReferencesByNumber(mark: string, plus: string, digits: string, vs: seq<nat>)
    requires mark in {"#", "#x", "#X"} && plus in {"", "+"}
    requires var radix := if mark == "#" then 10 else 16; vs != [] && Spells(digits, radix, vs)
    ensures var v := Worth(vs, if mark == "#" then 10 else 16);
            DecodeGeneralRef(mark + plus + digits) == if Scalar(v) then Some([v as char]) else None
  {
    hide IsDigit, DecodeGeneralRef, Worth, ParseU32;
    var radix := if mark == "#" then 10 else 16;
    PlusParses(plus, digits, radix, vs);
    ByNumber(mark, plus + digits);
    assert mark + plus + digits == mark + (plus + digits);
  }

  lemma {:induction false} PlusParses(plus: string, digits: string, radix: nat, vs: seq<nat>)
    requires plus in {"", "+"} && radix <= 16 && vs != [] && Spells(digits, radix, vs)
    ensures ParseU32(plus + digits, radix) ==
            if Worth(vs, radix) < 0x1_0000_0000 then Some(Worth(vs, radix)) else None
    ensures plus + digits != "" && (plus + digits)[0] !in "xX"
  {
    hide IsDigit, Digits, Worth;
    DigitsWorth(digits, radix, vs);
    DigitChars(digits[0], radix, vs[0]);
    var body := plus + digits;
    assert plus == "+" ==> body[0] == '+' && body[1..] == digits;
    assert plus == "" ==> body == digits;
  }

  lemma {:induction false} ByNumber(mark: string, body: string)
    requires mark in {"#", "#x", "#X"} && body != "" && (mark == "#" ==> body[0] !in "xX")
    ensures DecodeGeneralRef(mark + body) == match ParseU32(body, if mark == "#" then 10 else 16)
                                             case None => None
                                             case Some(v) => CharFromU32(v)
  {
    hide ParseU32;
    var s := mark + body;
    assert s[0] == '#' && s[|mark|..] == body;
    assert |mark| == 1 ==> s[1] == body[0];
    assert |mark| == 2 ==> s[1] == mark[1];
    assert "amp"[0] == 'a' && "lt"[0] == 'l' && "gt"[0] == 'g' && "quot"[0] == 'q' && "apos"[0] == 'a';
  }

  /** What is no number of a character is refused. */
  lemma {:induction false} NoReference(mark: string, plus: string, digits: string)
    requires mark in {"#", "#x", "#X"} && plus in {"", "+"} && (mark == "#" ==> digits == "" || digits[0] !in "xX")
    requires digits == "" || (digits[0] != '+' && NoNumeral(digits, if mark == "#" then 10 else 16))
    ensures DecodeGeneralRef(mark + plus + digits) == None
  {
    hide NoDigit, DecodeGeneralRef, ParseU32;
    var radix := if mark == "#" then 10 else 16;
    PlusRefused(plus, digits, radix);
    if plus + digits == "" {
      BareMark(mark);
      assert mark + plus + digits == mark;
    } else {
      ByNumber(mark, plus + digits);
      assert mark + plus + digits == mark + (plus + digits);
    }
  }

  lemma {:induction false} PlusRefused(plus: string, digits: string, radix: nat)
    requires plus in {"", "+"} && radix <= 16 && (digits == "" || (digits[0] != '+' && NoNumeral(digits, radix)))
    ensures ParseU32(plus + digits, radix) == None
    ensures plus == "+" ==> (plus + digits)[0] == '+'
    ensures plus == "" ==> plus + digits == digits
  {
    hide NoDigit, Digits;
    if digits != "" {
      var i :| 0 <= i < |digits| && NoDigit(digits[i], radix);
      NoDigits(digits, radix, i);
    }
    var body := plus + digits;
    assert plus == "+" ==> body[0] == '+' && body[1..] == digits;
    assert plus == "" ==> body == digits;
  }

  lemma {:induction false} BareMark(mark: string)
    requires mark in {"#", "#x", "#X"}
    ensures DecodeGeneralRef(mark) == None
  {
  }
}
