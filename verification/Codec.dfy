/** Variable-length integers and the ZigZag mapping. */
module Codec {
  import opened Basics
  import opened Bits

  // ---- ZigZag, at any width ----

  // A signed value of w bits.
  predicate Signed(w: nat, v: int)
    requires w > 0
  {
    0 <= v + Pow2(w - 1) && v < Pow2(w - 1)
  }

  // The low w bits of a two's complement number.
  function Unsigned(w: nat, v: int): nat { if w == 0 then 0 else v % 2 + 2 * Unsigned(w - 1, v / 2) }

  // The arithmetic right shift.
  function Asr(v: int, k: nat): int
    decreases k
  {
    if k == 0 then v else Asr(v / 2, k - 1)
  }

  // The signed reading of a word.
  function AsSigned(w: nat, u: nat): int
    requires w > 0
  {
    if u < Pow2(w - 1) then u else u - Pow2(w)
  }

  // Left shift by one, and arithmetic right shift that leaves only the sign.
  function ZigZagEncode(w: nat, v: int): nat
    requires w > 0
  {
    Xor(Unsigned(w, 2 * v), Unsigned(w, Asr(v, w - 1)))
  }

  function ZigZagDecode(w: nat, u: nat): int
    requires w > 0
  {
    AsSigned(w, Xor(u / 2, Unsigned(w, 0 - And(u, 1))))
  }

  lemma {:induction false} SignShift(v: int, k: nat)
    requires 0 <= v + Pow2(k) && v < Pow2(k)
    ensures Asr(v, k) == if v >= 0 then 0 else -1
    decreases k
  {
    if k > 0 { SignShift(v / 2, k - 1); }
  }

  lemma {:induction false} UnsignedOf(w: nat, v: int)
    requires 0 <= v + Pow2(w) && v < Pow2(w)
    ensures Unsigned(w, v) == if v >= 0 then v else v + Pow2(w)
  {
    if w > 0 { UnsignedOf(w - 1, v / 2); }
  }

  // The encoding counts up alternately from zero: 0, -1, 1, -2, 2, ...
  lemma {:induction false} EncodeAlternates(w: nat, v: int)
    requires w > 0 && Signed(w, v)
    ensures ZigZagEncode(w, v) == if v >= 0 then 2 * v else -2 * v - 1
    ensures ZigZagEncode(w, v) < Pow2(w)
  {
    SignShift(v, w - 1);
    if v >= 0 { EncodeNonNegative(w, v); } else { EncodeNegative(w, v); }
  }

  lemma {:induction false} EncodeNonNegative(w: nat, v: int)
    requires w > 0 && 0 <= v < Pow2(w - 1) && Asr(v, w - 1) == 0
    ensures ZigZagEncode(w, v) == 2 * v < Pow2(w)
  {
    UnsignedOf(w, 2 * v);
    UnsignedOf(w, 0);
  }

  lemma {:induction false} EncodeNegative(w: nat, v: int)
    requires w > 0 && v < 0 <= v + Pow2(w - 1) && Asr(v, w - 1) == -1
    ensures ZigZagEncode(w, v) == -2 * v - 1 < Pow2(w)
  {
    UnsignedOf(w, 2 * v);
    UnsignedOf(w, -1);
    XorOnes(2 * v + Pow2(w), w);
  }

  lemma {:induction false} DecodeAlternates(w: nat, u: nat)
    requires w > 0 && u < Pow2(w)
    ensures ZigZagDecode(w, u) == if u % 2 == 0 then u / 2 else -(u / 2) - 1
    ensures Signed(w, ZigZagDecode(w, u))
  {
    assert Pow2(w) == 2 * Pow2(w - 1);
    AndMask(u, 1);
    UnsignedOf(w, 0 - u % 2);
    if u % 2 == 1 { XorOnes(u / 2, w); }
  }

  // Decoding undoes encoding, at every width.
  lemma {:induction false} DecodeEncode(w: nat, v: int)
    requires w > 0 && Signed(w, v)
    ensures ZigZagDecode(w, ZigZagEncode(w, v)) == v
  {
    EncodeAlternates(w, v);
    var u := if v >= 0 then 2 * v else -2 * v - 1;
    DecodeAlternates(w, u);
    assert v >= 0 ==> u % 2 == 0 && u / 2 == v;
    assert v < 0 ==> u % 2 == 1 && u / 2 == -v - 1;
  }

  // And the other way round: every word is the encoding of one value.
  lemma {:induction false} EncodeDecode(w: nat, u: nat)
    requires w > 0 && u < Pow2(w)
    ensures ZigZagEncode(w, ZigZagDecode(w, u)) == u
  {
    DecodeAlternates(w, u);
    EncodeAlternates(w, if u % 2 == 0 then u / 2 else -(u / 2) - 1);
  }

  // ---- variable-length integers ----

  const U32 := 0x1_0000_0000

  // Seven bits a byte, the smallest first, the top bit on all but the last: the shortest form.
  function Groups(v: nat): (r: seq<Byte>)
    ensures |r| >= 1
  {
    if v < 0x80 then [v] else [v % 0x80 + 0x80] + Groups(v / 0x80)
  }

  // What the writer writes.
  function Written(v: nat): (r: seq<Byte>)
    requires v < U32
  {
    var a, b, c, d := v % 0x80, v / 0x80 % 0x80, v / 0x4000 % 0x80, v / 0x20_0000 % 0x80;
    if v < 0x80 then [a]
    else if v < 0x4000 then [a + 0x80, b]
    else if v < 0x20_0000 then [a + 0x80, b + 0x80, c]
    else if v < 0x1000_0000 then [a + 0x80, b + 0x80, c + 0x80, d]
    else [a + 0x80, b + 0x80, c + 0x80, d + 0x80, 0x7F]
  }

  // Shifting by seven bits, again and again.
  lemma {:induction false} Shifted(v: nat)
    ensures v / 0x80 / 0x80 == v / 0x4000
    ensures v / 0x4000 / 0x80 == v / 0x20_0000
    ensures v / 0x20_0000 / 0x80 == v / 0x1000_0000
  {}

  // Below 2^28 those are its groups of seven bits.
  lemma {:induction false} WrittenIsGroups(v: nat)
    requires v < 0x1000_0000
    ensures Written(v) == Groups(v)
  {
    var b, c, d := v / 0x80, v / 0x4000, v / 0x20_0000;
    Shifted(v);
    assert v >= 0x80 ==> Groups(v) == [v % 0x80 + 0x80] + Groups(b);
    assert b >= 0x80 ==> Groups(b) == [b % 0x80 + 0x80] + Groups(c);
    assert c >= 0x80 ==> Groups(c) == [c % 0x80 + 0x80] + Groups(d);
  }

  // Setting and clearing the top bit of the low byte.
  lemma {:induction false} TopBit(v: nat)
    ensures Or(v, 0x80) % 0x100 == v % 0x80 + 0x80
    ensures And(v, 0x7F) == v % 0x80
  {
    Pow2Small();
    AndMask(v, 7);
    TopBitAt(v / 0x80, v % 0x80, 7, 0x80);
    OrHalve(v / 0x80, 1);
    OddAbove(Or(v / 0x80, 1), v % 0x80);
  }

  // Setting bit k leaves the bits below it alone.
  lemma {:induction false} TopBitAt(high: nat, low: nat, k: nat, n: nat)
    requires low < n == Pow2(k)
    ensures Or(high * n + low, n) == Or(high, 1) * n + low
  {
    OrHigh(high, low, 1, k);
    ShlIsMul(high, k);
    ShlIsMul(1, k);
    ShlIsMul(Or(high, 1), k);
  }

  lemma {:induction false} OddAbove(q: nat, low: nat)
    requires q % 2 == 1 && low < 0x80
    ensures (q * 0x80 + low) % 0x100 == low + 0x80
  {
    assert q == q / 2 * 2 + 1;
  }

  lemma {:induction false} AllSeven(v: nat)
    requires v < 0x80
    ensures Or(v, 0x7F) % 0x100 == 0x7F
  {
    Pow2Small();
    OrOnes(v, 7);
  }

  // dst is src with the bytes w from start on.
  ghost predicate Stored(src: seq<Byte>, dst: seq<Byte>, start: nat, w: seq<Byte>) {
    && |dst| == |src| && start + |w| <= |src|
    && forall i :: 0 <= i < |src| ==> dst[i] == if start <= i < start + |w| then w[i - start] else src[i]
  }

  // The same bytes, by what is left of the value after each shift.
  lemma {:induction false} WrittenByShifts(v: nat)
    requires v < U32
    ensures
      var v1 := v / 0x80; var v2 := v1 / 0x80; var v3 := v2 / 0x80; var v4 := v3 / 0x80;
      var a, b, c, d := v % 0x80 + 0x80, v1 % 0x80 + 0x80, v2 % 0x80 + 0x80, v3 % 0x80 + 0x80;
      && v4 < 0x10
      && (v1 == 0 ==> Written(v) == [v % 0x80])
      && (v1 > 0 && v2 == 0 ==> Written(v) == [a, v1 % 0x80])
      && (v2 > 0 && v3 == 0 ==> Written(v) == [a, b, v2 % 0x80])
      && (v3 > 0 && v4 == 0 ==> Written(v) == [a, b, c, v3 % 0x80])
      && (v4 > 0 ==> Written(v) == [a, b, c, d, 0x7F])
  {
    Shifted(v);
  }

  // A byte is stored after those already written.
  method Append(buffer: array<Byte>, i: nat, b: Byte, ghost start: nat, ghost src: seq<Byte>, ghost done: seq<Byte>)
    requires Stored(src, buffer[..], start, done) && i == start + |done| < buffer.Length
    modifies buffer
    ensures Stored(src, buffer[..], start, done + [b])
  {
    buffer[i] := b;
  }

  // The last byte written loses its top bit.
  method ClearTop(
    buffer: array<Byte>, i: nat, ghost x: nat, ghost start: nat, ghost src: seq<Byte>, ghost done: seq<Byte>)
    requires Stored(src, buffer[..], start, done + [x % 0x80 + 0x80]) && i == start + |done|
    modifies buffer
    ensures Stored(src, buffer[..], start, done + [x % 0x80])
  {
    assert buffer[i] == x % 0x80 + 0x80;
    TopBit(buffer[i]);
    buffer[i] := And(buffer[i], 0x7F);
  }

  // The third byte and those after it: value is what is left after two shifts.
  method SetRest(buffer: array<Byte>, start: nat, value: nat, ghost src: seq<Byte>, ghost done: seq<Byte>, ghost v: nat)
    returns (next: nat)
    requires 0 < value == v / 0x80 / 0x80 && v < U32
    requires done == [v % 0x80 + 0x80, v / 0x80 % 0x80 + 0x80] && Stored(src, buffer[..], start, done)
    requires start + |Written(v)| <= buffer.Length
    modifies buffer
    ensures next == start + |Written(v)| && Stored(src, buffer[..], start, Written(v))
  {
    WrittenByShifts(v);
    TopBit(value);
    Append(buffer, start + 2, Or(value, 0x80) % 0x100, start, src, done);
    ghost var d3 := done + [value % 0x80 + 0x80];
    var rest := value / 0x80;
    if rest > 0 {
      TopBit(rest);
      Append(buffer, start + 3, Or(rest, 0x80) % 0x100, start, src, d3);
      ghost var r3, d4 := rest, d3 + [rest % 0x80 + 0x80];
      rest := rest / 0x80;
      if rest > 0 {
        AllSeven(rest);
        Append(buffer, start + 4, Or(rest, 0x7F) % 0x100, start, src, d4);
        assert d4 + [0x7F] == Written(v);
        next := start + 5;
      } else {
        ClearTop(buffer, start + 3, r3, start, src, d3);
        assert d3 + [r3 % 0x80] == Written(v);
        next := start + 4;
      }
    } else {
      ClearTop(buffer, start + 2, value, start, src, done);
      assert done + [value % 0x80] == Written(v);
      next := start + 3;
    }
  }

  method SetVarint32(buffer: array<Byte>, start: nat, v: nat) returns (next: nat)
    requires v < U32 && start + |Written(v)| <= buffer.Length
    modifies buffer
    ensures next == start + |Written(v)| && Stored(old(buffer[..]), buffer[..], start, Written(v))
  {
    WrittenByShifts(v);
    ghost var src := buffer[..];
    var value := v;
    TopBit(value);
    Append(buffer, start, Or(value, 0x80) % 0x100, start, src, []);
    ghost var d1 := [v % 0x80 + 0x80];
    assert [] + d1 == d1;
    value := value / 0x80;
    if value > 0 {
      TopBit(value);
      Append(buffer, start + 1, Or(value, 0x80) % 0x100, start, src, d1);
      ghost var v1 := value;
      assert d1 + [v1 % 0x80 + 0x80] == [v % 0x80 + 0x80, v1 % 0x80 + 0x80];
      value := value / 0x80;
      if value > 0 {
        next := SetRest(buffer, start, value, src, [v % 0x80 + 0x80, v1 % 0x80 + 0x80], v);
      } else {
        ClearTop(buffer, start + 1, v1, start, src, d1);
        assert d1 + [v1 % 0x80] == Written(v);
        next := start + 2;
      }
    } else {
      ClearTop(buffer, start, v, start, src, []);
      assert [] + [v % 0x80] == Written(v);
      next := start + 1;
    }
  }

  // ---- reading ----

  // The reader finds the end of the number: a byte below 0x80, or the fifth byte.
  predicate Complete(s: seq<Byte>) {
    || (|s| >= 1 && s[0] < 0x80) || (|s| >= 2 && s[1] < 0x80)
    || (|s| >= 3 && s[2] < 0x80) || (|s| >= 4 && s[3] < 0x80) || |s| >= 5
  }

  function Seven(b: Byte): nat { b % 0x80 }

  // How many bytes it takes, and their value in 32 bits.
  function ReadLength(s: seq<Byte>): (n: nat)
    requires Complete(s)
    ensures 1 <= n <= 5 && n <= |s|
  {
    if s[0] < 0x80 then 1 else if s[1] < 0x80 then 2 else if s[2] < 0x80 then 3 else if s[3] < 0x80 then 4 else 5
  }

  function ReadValue(s: seq<Byte>): nat
    requires Complete(s)
  {
    var n := ReadLength(s);
    Seven(s[0])
    + (if n > 1 then Seven(s[1]) * 0x80 else 0)
    + (if n > 2 then Seven(s[2]) * 0x4000 else 0)
    + (if n > 3 then Seven(s[3]) * 0x20_0000 else 0)
    + (if n > 4 then Seven(s[4]) % 0x10 * 0x1000_0000 else 0)
  }

  // One accumulation step: bits from position k up are added to a smaller value.
  lemma {:induction false} Accumulate(value: nat, x: nat, k: nat)
    requires value < Pow2(k)
    ensures Or(value, Shl(And(x, 0x7F), k)) == value + x % 0x80 * Pow2(k)
  {
    TopBit(x);
    OrDisjoint(x % 0x80, value, k);
    ShlIsMul(x % 0x80, k);
  }

  // The last step loses three bits.
  lemma {:induction false} AccumulateLast(value: nat, x: nat, k: nat)
    requires value < Pow2(k) == 0x1000_0000
    ensures Or(value, Shl(And(x, 0x7F), k) % U32) == value + x % 0x80 % 0x10 * 0x1000_0000
  {
    TopBit(x);
    var y := x % 0x80;
    ShlIsMul(y, k);
    Drop(y);
    ShlIsMul(y % 0x10, k);
    OrDisjoint(y % 0x10, value, k);
  }

  lemma {:induction false} Drop(y: nat)
    ensures y * 0x1000_0000 % U32 == y % 0x10 * 0x1000_0000
  {
    DivModUnique(y / 0x10, y % 0x10 * 0x1000_0000, U32);
  }

  // The masks of the reader on every byte.
  lemma {:induction false} ByteTests(s: seq<Byte>)
    ensures forall i :: 0 <= i < |s| ==> And(s[i], 0x7F) == s[i] % 0x80 && (And(s[i], 0x80) != 0 <==> s[i] >= 0x80)
  {
    forall i | 0 <= i < |s| ensures And(s[i], 0x7F) == s[i] % 0x80 && (And(s[i], 0x80) != 0 <==> s[i] >= 0x80) {
      TopBit(s[i]);
      TopBitTest(s[i]);
    }
  }

  method GetVarint32(s: seq<Byte>) returns (value: nat, next: nat)
    requires Complete(s)
    ensures value == ReadValue(s) && next == ReadLength(s)
  {
    Pow2Small();
    Pow2Large();
    ByteTests(s);
    value := And(s[0], 0x7F);
    if And(s[0], 0x80) != 0 {
      Accumulate(value, s[1], 7);
      value := Or(value, Shl(And(s[1], 0x7F), 7));
      assert value < 0x4000;
      if And(s[1], 0x80) != 0 {
        Accumulate(value, s[2], 14);
        value := Or(value, Shl(And(s[2], 0x7F), 14));
        assert value < 0x20_0000;
        if And(s[2], 0x80) != 0 {
          Accumulate(value, s[3], 21);
          value := Or(value, Shl(And(s[3], 0x7F), 21));
          assert value < 0x1000_0000;
          if And(s[3], 0x80) != 0 {
            AccumulateLast(value, s[4], 28);
            value := Or(value, Shl(And(s[4], 0x7F), 28) % U32);
            next := 5;
          } else {
            next := 4;
          }
        } else {
          next := 3;
        }
      } else {
        next := 2;
      }
    } else {
      next := 1;
    }
  }

  lemma {:induction false} TopBitTest(b: Byte)
    ensures And(b, 0x80) != 0 <==> b >= 0x80
  {
    Pow2Small();
    HighLow(b, 7);
    HighLowDivMod(b, 7);
    AndHigh(b / 0x80, b % 0x80, 1, 7);
    ShlIsMul(1, 7);
    ShlIsMul(And(b / 0x80, 1), 7);
    AndMask(b / 0x80, 1);
  }

  // ---- round trips ----

  // The reader looks no further than the number's own bytes.
  lemma {:induction false} ReadFirst(w: seq<Byte>, rest: seq<Byte>)
    requires Complete(w) && ReadLength(w) == |w|
    ensures Complete(w + rest) && ReadLength(w + rest) == |w| && ReadValue(w + rest) == ReadValue(w)
  {
    var s := w + rest;
    assert s[0] == w[0] && (|w| > 1 ==> s[1] == w[1]) && (|w| > 2 ==> s[2] == w[2]);
    assert (|w| > 3 ==> s[3] == w[3]) && (|w| > 4 ==> s[4] == w[4]);
  }

  lemma {:induction false} ReadSmall(v: nat)
    requires v < 0x1000_0000
    ensures Complete(Written(v)) && ReadLength(Written(v)) == |Written(v)|
    ensures ReadValue(Written(v)) == v
  {
    FewDigits(v);
    Sevens(v % 0x80, v / 0x80 % 0x80, v / 0x4000 % 0x80, v / 0x20_0000 % 0x80);
  }

  lemma {:induction false} FewDigits(v: nat)
    requires v < 0x1000_0000
    ensures
      var a, b, c, d := v % 0x80, v / 0x80 % 0x80, v / 0x4000 % 0x80, v / 0x20_0000 % 0x80;
      && v == a + b * 0x80 + c * 0x4000 + d * 0x20_0000
      && (v < 0x80 ==> v == a)
      && (v < 0x4000 ==> v == a + b * 0x80)
      && (v < 0x20_0000 ==> v == a + b * 0x80 + c * 0x4000)
  {
    SevenBitDigits(v);
  }

  lemma {:induction false} ReadLarge(v: nat)
    requires 0x1000_0000 <= v < U32
    ensures Complete(Written(v)) && ReadLength(Written(v)) == |Written(v)| == 5
    ensures ReadValue(Written(v)) == v % 0x1000_0000 + 0xF000_0000
  {
    SevenBitDigits(v);
    ReadFive(v % 0x80, v / 0x80 % 0x80, v / 0x4000 % 0x80, v / 0x20_0000 % 0x80);
  }

  lemma {:induction false} ReadFive(a: nat, b: nat, c: nat, d: nat)
    requires a < 0x80 && b < 0x80 && c < 0x80 && d < 0x80
    ensures
      var s: seq<Byte> := [a + 0x80, b + 0x80, c + 0x80, d + 0x80, 0x7F];
      && Complete(s) && ReadLength(s) == 5
      && ReadValue(s) == a + b * 0x80 + c * 0x4000 + d * 0x20_0000 + 0xF000_0000
  {
    Sevens(a, b, c, d);
  }

  // What is read from each of the writer's shapes.
  lemma {:induction false} Sevens(a: nat, b: nat, c: nat, d: nat)
    requires a < 0x80 && b < 0x80 && c < 0x80 && d < 0x80
    ensures ReadLength([a]) == 1 && ReadValue([a]) == a
    ensures ReadLength([a + 0x80, b]) == 2 && ReadValue([a + 0x80, b]) == a + b * 0x80
    ensures
      var s := [a + 0x80, b + 0x80, c];
      ReadLength(s) == 3 && ReadValue(s) == a + b * 0x80 + c * 0x4000
    ensures
      var s := [a + 0x80, b + 0x80, c + 0x80, d];
      ReadLength(s) == 4 && ReadValue(s) == a + b * 0x80 + c * 0x4000 + d * 0x20_0000
    ensures
      var s := [a + 0x80, b + 0x80, c + 0x80, d + 0x80, 0x7F];
      ReadLength(s) == 5 && ReadValue(s) == a + b * 0x80 + c * 0x4000 + d * 0x20_0000 + 0xF000_0000
  {
    assert Seven(a) == Seven(a + 0x80) == a && Seven(b) == Seven(b + 0x80) == b;
    assert Seven(c) == Seven(c + 0x80) == c && Seven(d) == Seven(d + 0x80) == d;
  }

  // Whatever follows, the reader stops exactly where the writer stopped, and reads the value
  // back, with the top four bits set if it had more than 28 bits.
  lemma {:induction false} ReadWritten(v: nat, rest: seq<Byte>)
    requires v < U32
    ensures Complete(Written(v) + rest) && ReadLength(Written(v) + rest) == |Written(v)|
    ensures ReadValue(Written(v) + rest) == if v < 0x1000_0000 then v else Or(v, 0xF000_0000)
  {
    if v < 0x1000_0000 {
      ReadSmall(v);
    } else {
      ReadLarge(v);
      TopFour(v);
    }
    ReadFirst(Written(v), rest);
  }

  lemma {:induction false} SevenBitDigits(v: nat)
    requires v < U32
    ensures v % 0x1000_0000 ==
      v % 0x80 + v / 0x80 % 0x80 * 0x80 + v / 0x4000 % 0x80 * 0x4000 + v / 0x20_0000 % 0x80 * 0x20_0000
  {
    Shifted(v);
  }

  lemma {:induction false} TopFour(v: nat)
    requires v < U32
    ensures Or(v, 0xF000_0000) == v % 0x1000_0000 + 0xF000_0000
  {
    Pow2Large();
    TopFourAt(v, 28);
  }

  lemma {:induction false} TopFourAt(v: nat, k: nat)
    requires v < U32 && Pow2(k) == 0x1000_0000
    ensures Or(v, 0xF000_0000) == v % 0x1000_0000 + 0xF000_0000
  {
    HighLow(v, k);
    HighLowDivMod(v, k);
    OrHigh(v / 0x1000_0000, v % 0x1000_0000, 15, k);
    ShlIsMul(15, k);
    Pow2Small();
    OrOnes(v / 0x1000_0000, 4);
  }

  // What n bytes can hold.
  lemma {:induction false} ReadBound(s: seq<Byte>)
    requires Complete(s)
    ensures ReadLength(s) == 1 ==> ReadValue(s) < 0x80
    ensures ReadLength(s) == 2 ==> ReadValue(s) < 0x4000
    ensures ReadLength(s) == 3 ==> ReadValue(s) < 0x20_0000
    ensures ReadLength(s) == 4 ==> ReadValue(s) < 0x1000_0000
  {}

  // No string of bytes that reads as v is shorter than the one written for it.
  lemma {:induction false} WrittenIsShortest(v: nat, s: seq<Byte>)
    requires v < U32 && Complete(s) && ReadValue(s) == v
    ensures |Written(v)| <= ReadLength(s)
  {
    ReadBound(s);
  }

  // The value comes back exactly if it fits in 28 bits, or its top four bits are all ones.
  lemma {:induction false} VarintRoundTripIff(v: nat, rest: seq<Byte>)
    requires v < U32
    ensures Complete(Written(v) + rest)
    ensures ReadValue(Written(v) + rest) == v <==> v < 0x1000_0000 || v >= 0xF000_0000
  {
    if v < 0x1000_0000 { ReadSmall(v); } else { ReadLarge(v); }
    ReadFirst(Written(v), rest);
  }

  lemma {:induction false} VarintLosesBits()
    ensures Complete(Written(0x1000_0000)) && ReadValue(Written(0x1000_0000)) == 0xF000_0000
  {
    ReadLarge(0x1000_0000);
  }
}
