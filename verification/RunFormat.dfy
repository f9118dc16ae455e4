/** The byte format of sort runs: fixed-width little-endian fields and a 7-bit length before the text. */
module RunFormat {
  import opened Common

  type Octet = x: int | 0 <= x < 256

  const TWO_32: int := 0x1_0000_0000
  const TWO_63: int := 0x8000_0000_0000_0000
  const TWO_64: int := 0x1_0000_0000_0000_0000

  predicate IsI64(v: int) { -TWO_63 <= v < TWO_63 }

  function ToLe(v: nat, n: nat): (b: seq<Octet>)
    ensures |b| == n
  {
    if n == 0 then [] else [v % 256] + ToLe(v / 256, n - 1)
  }

  function FromLe(b: seq<Octet>): nat { if b == [] then 0 else b[0] + 256 * FromLe(b[1..]) }

  function Power256(n: nat): nat { if n == 0 then 1 else 256 * Power256(n - 1) }

  lemma {:induction false} LittleEndianRoundTrip(v: nat, n: nat)
    requires v < Power256(n)
    ensures FromLe(ToLe(v, n)) == v
  {
    if n > 0 {
      LittleEndianRoundTrip(v / 256, n - 1);
      var b := ToLe(v, n);
      assert b[1..] == ToLe(v / 256, n - 1);
    }
  }

  function ToI64(v: int): (b: seq<Octet>)
    requires IsI64(v)
    ensures |b| == 8
  {
    ToLe(if v < 0 then v + TWO_64 else v, 8)
  }

  function FromI64(b: seq<Octet>): int {
    var u := FromLe(b);
    if u >= TWO_63 then u - TWO_64 else u
  }

  lemma I64RoundTrip(v: int)
    requires IsI64(v)
    ensures FromI64(ToI64(v)) == v
  {
    assert Power256(8) == TWO_64;
    LittleEndianRoundTrip(if v < 0 then v + TWO_64 else v, 8);
  }

  /** Eight bytes, the lowest first, as one number. */
  function U64(b: seq<Octet>): nat
    requires |b| == 8
  {
    var n := (i: int) requires 0 <= i < 8 => b[i] as int;
    n(0) + 0x100 * n(1) + 0x1_0000 * n(2) + 0x100_0000 * n(3) + 0x1_0000_0000 * n(4) + 0x100_0000_0000 * n(5)
    + 0x1_0000_0000_0000 * n(6) + 0x100_0000_0000_0000 * n(7)
  }

  lemma FromLeIsU64(b: seq<Octet>)
    requires |b| == 8
    ensures FromLe(b) == U64(b)
  {
    assert FromLe(b[8..]) == 0;
    assert forall i :: 0 <= i < 8 ==> b[i..][1..] == b[i + 1..];
    assert FromLe(b[7..]) == b[7];
    assert FromLe(b[6..]) == b[6] + 0x100 * FromLe(b[7..]);
    assert FromLe(b[5..]) == b[5] + 0x100 * FromLe(b[6..]);
    assert FromLe(b[4..]) == b[4] + 0x100 * FromLe(b[5..]);
    assert FromLe(b[3..]) == b[3] + 0x100 * FromLe(b[4..]);
    assert FromLe(b[2..]) == b[2] + 0x100 * FromLe(b[3..]);
    assert FromLe(b[1..]) == b[1] + 0x100 * FromLe(b[2..]);
    assert b[0..] == b;
  }

  /** A signed number is written in two's complement, the lowest byte first; and any eight bytes are
      read that way. */
  lemma I64Layout(v: int, b: seq<Octet>)
    requires IsI64(v) && |b| == 8
    ensures U64(ToI64(v)) == v % TWO_64
    ensures IsI64(FromI64(b)) && FromI64(b) % TWO_64 == U64(b)
  {
    hide U64, FromLe, ToLe, Power256;
    var u := if v < 0 then v + TWO_64 else v;
    Eight();
    LittleEndianRoundTrip(u, 8);
    FromLeIsU64(ToLe(u, 8));
    FromLeIsU64(b);
    U64Range(b);
    Wraps(v);
    Wraps(FromI64(b));
  }

  lemma Eight()
    ensures Power256(8) == TWO_64
  {
  }

  lemma U64Range(b: seq<Octet>)
    requires |b| == 8
    ensures U64(b) < TWO_64
  {
  }

  lemma Wraps(v: int)
    requires IsI64(v)
    ensures v % TWO_64 == if v < 0 then v + TWO_64 else v
  {
  }

  // ----- 7-bit lengths

  /** The weight of the `i`th seven bits: what a shift by 7 * i multiplies by. */
  function Weight(i: nat): (w: nat)
    ensures w > 0
  {
    if i == 0 then 1 else 0x80 * Weight(i - 1)
  }

  /** Seven bits a byte, low bits first, the high bit set on all bytes but the last. */
  function Leb(value: nat): seq<Octet> {
    if value < 0x80 then [value] else [value % 0x80 + 0x80] + Leb(value / 0x80)
  }

  /** The number that bytes of seven bits stand for, the lowest first. */
  function Sevens(b: seq<Octet>): nat { if b == [] then 0 else b[0] % 0x80 + 0x80 * Sevens(b[1..]) }

  /** A length is written in the fewest such bytes, all but the last marked by their high bit. */
  lemma {:induction false} LebLayout(value: nat)
    ensures var b := Leb(value);
      && b != [] && Sevens(b) == value
      && (forall i :: 0 <= i < |b| ==> (b[i] < 0x80 <==> i == |b| - 1))
      && (|b| > 1 ==> b[|b| - 1] > 0)
  {
    if value >= 0x80 {
      LebLayout(value / 0x80);
      var b := Leb(value);
      assert b[1..] == Leb(value / 0x80);
      assert forall i :: 1 <= i < |b| ==> b[i] == b[1..][i - 1];
      assert value / 0x80 < 0x80 ==> Leb(value / 0x80) == [value / 0x80];
    }
  }

  method WriteU32(value: nat) returns (bytes: seq<Octet>)
    requires value < TWO_32
    ensures bytes == Leb(value)
  {
    bytes := [];
    var v := value;
    while v >= 0x80
      invariant bytes + Leb(v) == Leb(value)
    {
      assert Leb(v) == [v % 0x80 + 0x80] + Leb(v / 0x80);
      bytes := bytes + [v % 0x80 + 0x80];
      v := v / 0x80;
    }
    bytes := bytes + [v];
  }

  /** Reads at most five bytes; bits beyond the thirty-second are shifted out. */
  function ParseLeb(b: seq<Octet>, i: nat, acc: nat): Result<(nat, seq<Octet>), ()>
    decreases 5 - i
  {
    if i >= 5 || b == [] then Err(())
    else
      var sum := acc + (b[0] % 0x80) * Weight(i) % TWO_32;
      if b[0] < 0x80 then Ok((sum, b[1..])) else ParseLeb(b[1..], i + 1, sum)
  }

  method ReadU32(b: seq<Octet>) returns (r: Result<(nat, seq<Octet>), ()>)
    ensures r == ParseLeb(b, 0, 0)
  {
    var result: nat, rest := 0, b;
    for i := 0 to 5
      invariant ParseLeb(rest, i, result) == ParseLeb(b, 0, 0)
    {
      if rest == [] {
        return Err(());
      }
      var byte := rest[0];
      result := result + (byte % 0x80) * Weight(i) % TWO_32;
      rest := rest[1..];
      if byte < 0x80 {
        return Ok((result, rest));
      }
    }
    r := Err(());
  }

  lemma SevenMore(v: nat, p: nat)
    ensures (v % 0x80) * p + (v / 0x80) * (0x80 * p) == v * p
    ensures (v % 0x80) * p <= v * p && (v / 0x80) * (0x80 * p) <= v * p
  {
    var q, r := v / 0x80, v % 0x80;
    assert v == 0x80 * q + r;
    assert (0x80 * q + r) * p == q * (0x80 * p) + r * p;
    assert q * (0x80 * p) >= 0 && r * p >= 0;
  }

  lemma FifthByteIsLast(value: nat)
    requires value * Weight(4) < TWO_32
    ensures value < 0x80
  {
    assert Weight(4) == 0x80 * Weight(3) == 0x4000 * Weight(2) == 0x20_0000 * Weight(1) == 0x1000_0000;
  }

  lemma {:induction false} ParseLebOf(value: nat, rest: seq<Octet>, i: nat, acc: nat)
    requires i < 5 && value * Weight(i) < TWO_32
    ensures ParseLeb(Leb(value) + rest, i, acc) == Ok((acc + value * Weight(i), rest))
    decreases value
  {
    hide Weight, ParseLeb, Leb;
    SevenMore(value, Weight(i));
    if value < 0x80 {
      LastByte(value, rest, i, acc);
    } else {
      if i == 4 {
        FifthByteIsLast(value);
      }
      WeightNext(i);
      FirstByte(value, rest, i, acc);
      ParseLebOf(value / 0x80, rest, i + 1, acc + (value % 0x80) * Weight(i));
    }
  }

  lemma {:induction false} LastByte(value: nat, rest: seq<Octet>, i: nat, acc: nat)
    requires value < 0x80 && i < 5 && value * Weight(i) < TWO_32
    ensures ParseLeb(Leb(value) + rest, i, acc) == Ok((acc + value * Weight(i), rest))
  {
    hide Weight;
    var b := Leb(value) + rest;
    assert b[0] == value && b[1..] == rest;
    Small(value * Weight(i));
    assert value % 0x80 == value;
  }

  lemma {:induction false} FirstByte(value: nat, rest: seq<Octet>, i: nat, acc: nat)
    requires value >= 0x80 && i < 5 && (value % 0x80) * Weight(i) < TWO_32
    ensures ParseLeb(Leb(value) + rest, i, acc) ==
            ParseLeb(Leb(value / 0x80) + rest, i + 1, acc + (value % 0x80) * Weight(i))
  {
    hide Weight;
    var b := Leb(value) + rest;
    assert b[0] == value % 0x80 + 0x80 && b[1..] == Leb(value / 0x80) + rest;
    assert b[0] % 0x80 == value % 0x80;
    Small((value % 0x80) * Weight(i));
  }

  lemma Small(x: nat)
    requires x < TWO_32
    ensures x % TWO_32 == x
  {
  }

  lemma WeightNext(i: nat)
    ensures Weight(i + 1) == 0x80 * Weight(i)
  {
  }

  /** Every 32-bit length is read back, whatever follows it. */
  lemma LebRoundTrip(value: nat, rest: seq<Octet>)
    requires value < TWO_32
    ensures ParseLeb(Leb(value) + rest, 0, 0) == Ok((value, rest))
  {
    ParseLebOf(value, rest, 0, 0);
  }
}
