/** The UTF-8 validator, against the encoding of code points in shortest form. */
module Utf8 {
  import opened Basics
  import opened Bits

  // ---- the validator ----

  predicate Within(b: Byte, lo: int, hi: int) { lo <= b <= hi }

  predicate OneByte(s: seq<Byte>)
    requires |s| >= 1
  {
    s[0] <= 0x7F
  }

  predicate TwoBytes(s: seq<Byte>)
    requires |s| >= 2
  {
    Within(s[0], 0xC2, 0xDF) && Within(s[1], 0x80, 0xBF)
  }

  predicate ThreeBytes(s: seq<Byte>)
    requires |s| >= 3
  {
    if s[0] == 0xE0 then Within(s[1], 0xA0, 0xBF) && Within(s[2], 0x80, 0xBF)
    else if 0xE1 <= s[0] <= 0xEC then Within(s[1], 0x80, 0xBF) && Within(s[2], 0x80, 0xBF)
    else if s[0] == 0xED then Within(s[1], 0x80, 0x9F) && Within(s[2], 0x80, 0xBF)
    else if 0xEE <= s[0] <= 0xEF then Within(s[1], 0x80, 0xBF) && Within(s[2], 0x80, 0xBF)
    else false
  }

  predicate FourBytes(s: seq<Byte>)
    requires |s| >= 4
  {
    if s[0] == 0xF0 then
      Within(s[1], 0x90, 0xBF) && Within(s[2], 0x80, 0xBF) && Within(s[3], 0x80, 0xBF)
    else if 0xF1 <= s[0] <= 0xF3 then
      Within(s[1], 0x80, 0xBF) && Within(s[2], 0x80, 0xBF) && Within(s[3], 0x80, 0xBF)
    else if s[0] == 0xF4 then
      Within(s[1], 0x80, 0x9F) && Within(s[2], 0x80, 0xBF) && Within(s[3], 0x80, 0xBF)
    else false
  }

  // The loop over the input, until it is used up or a group is refused.
  method CheckImpl(s: seq<Byte>) returns (ok: bool)
    ensures ok <==> WellFormed(s)
  {
    var i := 0;
    assert s[0..] == s;
    while i < |s|
      invariant 0 <= i <= |s|
      invariant WellFormed(s) <==> WellFormed(s[i..])
    {
      MaskedLead(s[i]);
      WellFormedStep(s[i..]);
      if And(s[i], 0xF0) == 0xF0 {
        if |s| - i < 4 || !FourBytes(s[i..]) { return false; }
        assert s[i..][4..] == s[i + 4..];
        i := i + 4;
      } else if And(s[i], 0xE0) == 0xE0 {
        if |s| - i < 3 || !ThreeBytes(s[i..]) { return false; }
        assert s[i..][3..] == s[i + 3..];
        i := i + 3;
      } else if And(s[i], 0xC0) == 0xC0 {
        if |s| - i < 2 || !TwoBytes(s[i..]) { return false; }
        assert s[i..][2..] == s[i + 2..];
        i := i + 2;
      } else if OneByte(s[i..]) {
        assert s[i..][1..] == s[i + 1..];
        i := i + 1;
      } else {
        return false;
      }
    }
    assert s[i..] == [];
    EncodesNothing();
    return true;
  }

  // The masks test the leading ones of a byte.
  lemma {:induction false} MaskedLead(b: Byte)
    ensures And(b, 0xF0) == 0xF0 <==> b >= 0xF0
    ensures And(b, 0xE0) == 0xE0 <==> b >= 0xE0
    ensures And(b, 0xC0) == 0xC0 <==> b >= 0xC0
  {
    FourOnes(b);
    ThreeOnes(b);
    TwoOnes(b);
  }

  lemma {:induction false} FourOnes(b: Byte)
    ensures And(b, 0xF0) == 0xF0 <==> b >= 0xF0
  {
    Pow2Small();
    LeadTest(b, 4, 4, 16, 16);
  }

  lemma {:induction false} ThreeOnes(b: Byte)
    ensures And(b, 0xE0) == 0xE0 <==> b >= 0xE0
  {
    Pow2Small();
    LeadTest(b, 3, 5, 8, 32);
  }

  lemma {:induction false} TwoOnes(b: Byte)
    ensures And(b, 0xC0) == 0xC0 <==> b >= 0xC0
  {
    Pow2Small();
    LeadTest(b, 2, 6, 4, 64);
  }

  lemma {:induction false} LeadTest(x: nat, n: nat, k: nat, p: nat, q: nat)
    requires p == Pow2(n) && q == Pow2(k) && x < Pow2(n + k)
    ensures And(x, (p - 1) * q) == (p - 1) * q <==> x >= (p - 1) * q
  {
    ShlIsMul(p - 1, k);
    LeadingOnes(x, n, k);
  }

  // A word of n + k bits has its first n bits set exactly if it is no less than n ones and k zeros.
  lemma {:induction false} LeadingOnes(x: nat, n: nat, k: nat)
    requires x < Pow2(n + k)
    ensures And(x, Shl(Pow2(n) - 1, k)) == Shl(Pow2(n) - 1, k) <==> x >= Shl(Pow2(n) - 1, k)
    decreases k
  {
    if k == 0 {
      AndOnes(x, n);
      LowAll(x, n);
    } else {
      LeadingOnes(x / 2, n, k - 1);
      Halve(Shl(Pow2(n) - 1, k - 1), 0);
      AndHalve(x, Shl(Pow2(n) - 1, k));
    }
  }

  lemma {:induction false} LowAll(x: nat, k: nat)
    requires x < Pow2(k)
    ensures Low(x, k) == x
  {
    if k > 0 { LowAll(x / 2, k - 1); }
  }

  // ---- the encoding, section 3 of RFC 3629 ----

  const MAX_ACCEPTED := 0x11FFFF
  const MAX_SCALAR := 0x10FFFF

  predicate CodePoint(cp: int) { 0 <= cp <= MAX_ACCEPTED && !(0xD800 <= cp <= 0xDFFF) }

  function Encode(cp: int): seq<Byte>
    requires CodePoint(cp)
  {
    if cp < 0x80 then [cp]
    else if cp < 0x800 then [0xC0 + cp / 0x40, 0x80 + cp % 0x40]
    else if cp < 0x1_0000 then [0xE0 + cp / 0x1000, 0x80 + cp / 0x40 % 0x40, 0x80 + cp % 0x40]
    else [0xF0 + cp / 0x4_0000, 0x80 + cp / 0x1000 % 0x40, 0x80 + cp / 0x40 % 0x40, 0x80 + cp % 0x40]
  }

  predicate CodePoints(cps: seq<int>) { forall i :: 0 <= i < |cps| ==> CodePoint(cps[i]) }

  function EncodeAll(cps: seq<int>): seq<Byte>
    requires CodePoints(cps)
  {
    if cps == [] then [] else Encode(cps[0]) + EncodeAll(cps[1..])
  }

  ghost predicate Encodes(cps: seq<int>, s: seq<Byte>) { CodePoints(cps) && EncodeAll(cps) == s }

  // A concatenation of shortest-form encodings of non-surrogate values up to 0x11FFFF.
  ghost predicate WellFormed(s: seq<Byte>) { exists cps: seq<int> :: Encodes(cps, s) }

  // ---- one group ----

  // The value of up to four groups of six bits.
  function Value(a: int, b: int, c: int, d: int): int { a * 0x4_0000 + b * 0x1000 + c * 0x40 + d }

  // The code point in the group that s begins with, and its length; length 0 if it is refused.
  function Decode(s: seq<Byte>): (int, nat)
    requires s != []
  {
    var b0 := s[0] as int;
    if b0 >= 0xF0 then
      if |s| >= 4 && FourBytes(s)
      then (Value(b0 - 0xF0, Six(s[1]), Six(s[2]), Six(s[3])), 4)
      else (0, 0)
    else if b0 >= 0xE0 then
      if |s| >= 3 && ThreeBytes(s) then (Value(0, b0 - 0xE0, Six(s[1]), Six(s[2])), 3) else (0, 0)
    else if b0 >= 0xC0 then
      if |s| >= 2 && TwoBytes(s) then (Value(0, 0, b0 - 0xC0, Six(s[1])), 2) else (0, 0)
    else if OneByte(s) then (b0, 1)
    else (0, 0)
  }

  function Six(b: Byte): int { b as int - 0x80 }

  lemma {:induction false} LowSix(x: int, d: int)
    requires 0 <= x && 0 <= d < 64
    ensures (x * 0x40 + d) / 0x40 == x && (x * 0x40 + d) % 0x40 == d
  {}

  lemma {:induction false} Sixes(v: int)
    requires v >= 0
    ensures v / 0x1000 == v / 0x40 / 0x40 && v / 0x4_0000 == v / 0x40 / 0x40 / 0x40
  {}

  lemma {:induction false} DigitsValue(v: int)
    requires v >= 0
    ensures v == Value(v / 0x4_0000, v / 0x1000 % 0x40, v / 0x40 % 0x40, v % 0x40)
  {
    Sixes(v);
  }

  lemma {:induction false} ThreeDigits(b: int, c: int, d: int)
    requires 0 <= b && 0 <= c < 64 && 0 <= d < 64
    ensures var v := Value(0, b, c, d); v / 0x1000 == b && v / 0x40 % 0x40 == c && v % 0x40 == d
  {
    LowSix(b * 0x40 + c, d);
    LowSix(b, c);
    Sixes(Value(0, b, c, d));
  }

  lemma {:induction false} FourDigits(a: int, b: int, c: int, d: int)
    requires 0 <= a && 0 <= b < 64 && 0 <= c < 64 && 0 <= d < 64
    ensures
      var v := Value(a, b, c, d);
      v / 0x4_0000 == a && v / 0x1000 % 0x40 == b && v / 0x40 % 0x40 == c && v % 0x40 == d
  {
    LowSix((a * 0x40 + b) * 0x40 + c, d);
    LowSix(a * 0x40 + b, c);
    LowSix(a, b);
    Sixes(Value(a, b, c, d));
  }

  lemma {:induction false} FourEncode(s: seq<Byte>)
    requires |s| >= 4 && FourBytes(s)
    ensures s[0] >= 0xF0
    ensures
      var cp := Value(s[0] as int - 0xF0, Six(s[1]), Six(s[2]), Six(s[3]));
      CodePoint(cp) && Encode(cp) == s[..4]
  {
    FourDigits(s[0] as int - 0xF0, Six(s[1]), Six(s[2]), Six(s[3]));
  }

  lemma {:induction false} ThreeEncode(s: seq<Byte>)
    requires |s| >= 3 && ThreeBytes(s)
    ensures 0xE0 <= s[0] < 0xF0
    ensures var cp := Value(0, s[0] as int - 0xE0, Six(s[1]), Six(s[2])); CodePoint(cp) && Encode(cp) == s[..3]
  {
    ThreeDigits(s[0] as int - 0xE0, Six(s[1]), Six(s[2]));
  }

  lemma {:induction false} TwoEncode(s: seq<Byte>)
    requires |s| >= 2 && TwoBytes(s)
    ensures 0xC0 <= s[0] < 0xE0
    ensures var cp := Value(0, 0, s[0] as int - 0xC0, Six(s[1])); CodePoint(cp) && Encode(cp) == s[..2]
  {
    LowSix(s[0] as int - 0xC0, Six(s[1]));
  }

  // What the group tests accept is the encoding of a code point.
  lemma {:induction false} GroupEncodes(s: seq<Byte>)
    requires s != [] && Decode(s).1 > 0
    ensures var (cp, n) := Decode(s); n <= |s| && CodePoint(cp) && Encode(cp) == s[..n]
  {
    if s[0] >= 0xF0 {
      FourEncode(s);
    } else if s[0] >= 0xE0 {
      ThreeEncode(s);
    } else if s[0] >= 0xC0 {
      TwoEncode(s);
    }
  }

  // The encoding of a code point is accepted, whatever follows.
  lemma {:induction false} EncodingIsGroup(cp: int, rest: seq<Byte>)
    requires CodePoint(cp)
    ensures Encode(cp) + rest != [] && Decode(Encode(cp) + rest) == (cp, |Encode(cp)|)
  {
    var e, s := Encode(cp), Encode(cp) + rest;
    assert forall i :: 0 <= i < |e| ==> s[i] == e[i];
    if cp < 0x800 {
      if cp >= 0x80 { TwoIsGroup(cp, s); }
    } else if cp < 0x1_0000 {
      ThreeIsGroup(cp, s);
    } else {
      FourIsGroup(cp, s);
    }
  }

  lemma {:induction false} TwoIsGroup(cp: int, s: seq<Byte>)
    requires 0x80 <= cp < 0x800 && |s| >= 2
    requires s[0] == Encode(cp)[0] && s[1] == Encode(cp)[1]
    ensures Decode(s) == (cp, 2)
  {
    DigitsValue(cp);
  }

  lemma {:induction false} ThreeIsGroup(cp: int, s: seq<Byte>)
    requires CodePoint(cp) && 0x800 <= cp < 0x1_0000 && |s| >= 3
    requires s[0] == Encode(cp)[0] && s[1] == Encode(cp)[1] && s[2] == Encode(cp)[2]
    ensures Decode(s) == (cp, 3)
  {
    DigitsValue(cp);
  }

  lemma {:induction false} FourIsGroup(cp: int, s: seq<Byte>)
    requires CodePoint(cp) && 0x1_0000 <= cp && |s| >= 4
    requires s[0] == Encode(cp)[0] && s[1] == Encode(cp)[1] && s[2] == Encode(cp)[2] && s[3] == Encode(cp)[3]
    ensures Decode(s) == (cp, 4)
  {
    DigitsValue(cp);
  }

  // ---- whole strings ----

  lemma {:induction false} EncodesNothing()
    ensures WellFormed([])
  {
    assert Encodes([], []);
  }

  // A non-empty string is well formed exactly if its first group is and what follows it is.
  lemma {:induction false} WellFormedStep(s: seq<Byte>)
    requires s != []
    ensures Decode(s).1 <= |s|
    ensures WellFormed(s) <==> Decode(s).1 > 0 && WellFormed(s[Decode(s).1..])
  {
    if Decode(s).1 > 0 {
      GroupEncodes(s);
      GroupAndRest(s, Decode(s).0, Decode(s).1);
    }
    if WellFormed(s) { HasFirstGroup(s); }
  }

  lemma {:induction false} GroupAndRest(s: seq<Byte>, cp: int, n: nat)
    requires n <= |s| && CodePoint(cp) && Encode(cp) == s[..n]
    ensures WellFormed(s[n..]) ==> WellFormed(s)
  {
    assert s == Encode(cp) + s[n..];
    if WellFormed(s[n..]) { Prepended(cp, s[n..]); }
  }

  lemma {:induction false} HasFirstGroup(s: seq<Byte>)
    requires s != [] && WellFormed(s)
    ensures 0 < Decode(s).1 <= |s| && WellFormed(s[Decode(s).1..])
  {
    var cps :| Encodes(cps, s);
    FirstGroup(cps);
    assert Encodes(cps[1..], EncodeAll(cps[1..]));
  }

  lemma {:induction false} FirstGroup(cps: seq<int>)
    requires cps != [] && CodePoints(cps)
    ensures EncodeAll(cps) != [] && Decode(EncodeAll(cps)) == (cps[0], |Encode(cps[0])|)
    ensures 0 < |Encode(cps[0])| <= |EncodeAll(cps)|
    ensures EncodeAll(cps)[|Encode(cps[0])|..] == EncodeAll(cps[1..])
  {
    EncodingIsGroup(cps[0], EncodeAll(cps[1..]));
  }

  lemma {:induction false} Prepended(cp: int, rest: seq<Byte>)
    requires CodePoint(cp) && WellFormed(rest)
    ensures WellFormed(Encode(cp) + rest)
  {
    var cps :| Encodes(cps, rest);
    assert ([cp] + cps)[1..] == cps;
    assert Encodes([cp] + cps, Encode(cp) + rest);
  }

  lemma {:induction false} EncodesToNothing(cps: seq<int>)
    requires CodePoints(cps)
    ensures EncodeAll(cps) == [] <==> cps == []
  {
    if cps != [] { assert |Encode(cps[0])| > 0; }
  }

  // The decomposition into code points is unique.
  lemma {:induction false} EncodingIsUnique(a: seq<int>, b: seq<int>)
    requires CodePoints(a) && CodePoints(b) && EncodeAll(a) == EncodeAll(b)
    ensures a == b
  {
    if a == [] {
      EncodesToNothing(b);
    } else {
      assert b != [];
      FirstGroup(a);
      FirstGroup(b);
      EncodingIsUnique(a[1..], b[1..]);
      assert a == [a[0]] + a[1..] && b == [b[0]] + b[1..];
    }
  }

  // After a well-formed string, only what follows matters.
  lemma {:induction false} Concatenation(a: seq<Byte>, b: seq<Byte>)
    requires WellFormed(a)
    ensures WellFormed(a + b) <==> WellFormed(b)
    decreases |a|
  {
    if a == [] {
      assert a + b == b;
    } else {
      WellFormedStep(a);
      SameFirstGroup(a, b);
      WellFormedStep(a + b);
      Concatenation(a[Decode(a).1..], b);
    }
  }

  lemma {:induction false} SameFirstGroup(a: seq<Byte>, b: seq<Byte>)
    requires a != [] && 0 < Decode(a).1 <= |a|
    ensures Decode(a + b) == Decode(a) && (a + b)[Decode(a).1..] == a[Decode(a).1..] + b
  {
    var (cp, n) := Decode(a);
    GroupEncodes(a);
    CutFirst(a, b, n);
    EncodingIsGroup(cp, a[n..] + b);
  }

  lemma {:induction false} CutFirst<T>(a: seq<T>, b: seq<T>, n: nat)
    requires n <= |a|
    ensures a + b == a[..n] + (a[n..] + b) && (a + b)[n..] == a[n..] + b
  {}

  // ---- section 4 of RFC 3629 ----

  // UTF8-char: the byte ranges of the grammar.
  predicate Utf8Char(s: seq<Byte>) {
    || (|s| == 1 && s[0] <= 0x7F)
    || (|s| == 2 && Within(s[0], 0xC2, 0xDF) && Tails(s, 1))
    || (|s| == 3 && s[0] == 0xE0 && Within(s[1], 0xA0, 0xBF) && Tails(s, 2))
    || (|s| == 3 && Within(s[0], 0xE1, 0xEC) && Tails(s, 1))
    || (|s| == 3 && s[0] == 0xED && Within(s[1], 0x80, 0x9F) && Tails(s, 2))
    || (|s| == 3 && Within(s[0], 0xEE, 0xEF) && Tails(s, 1))
    || (|s| == 4 && s[0] == 0xF0 && Within(s[1], 0x90, 0xBF) && Tails(s, 2))
    || (|s| == 4 && Within(s[0], 0xF1, 0xF3) && Tails(s, 1))
    || (|s| == 4 && s[0] == 0xF4 && Within(s[1], 0x80, 0x8F) && Tails(s, 2))
  }

  // UTF8-tail from position i on.
  predicate Tails(s: seq<Byte>, i: nat) { forall k :: i <= k < |s| ==> Within(s[k], 0x80, 0xBF) }

  // UTF8-octets.
  ghost predicate Octets(s: seq<Byte>)
    decreases |s|
  {
    s == [] || exists n :: 1 <= n <= |s| && Utf8Char(s[..n]) && Octets(s[n..])
  }

  // The encodings of the RFC's own code points, which end at 0x10FFFF.
  ghost predicate Rfc(s: seq<Byte>) {
    exists cps: seq<int> :: Encodes(cps, s) && !HasLarge(cps)
  }

  lemma {:induction false} CharEncodes(s: seq<Byte>) returns (cp: int)
    requires Utf8Char(s)
    ensures CodePoint(cp) && cp <= MAX_SCALAR && Encode(cp) == s
  {
    cp := Decode(s).0;
    GroupEncodes(s);
    assert s[..|s|] == s;
  }

  lemma {:induction false} EncodingIsChar(cp: int)
    requires CodePoint(cp) && cp <= MAX_SCALAR
    ensures Utf8Char(Encode(cp))
  {
    EncodingIsGroup(cp, []);
    assert Encode(cp) + [] == Encode(cp);
  }

  lemma {:induction false} PrependedRfc(cp: int, rest: seq<Byte>)
    requires CodePoint(cp) && cp <= MAX_SCALAR && Rfc(rest)
    ensures Rfc(Encode(cp) + rest)
  {
    var cps :| Encodes(cps, rest) && !HasLarge(cps);
    var all := [cp] + cps;
    assert all[1..] == cps;
    forall j | 0 <= j < |all| ensures all[j] <= MAX_SCALAR && CodePoint(all[j]) {
      if j > 0 { assert all[j] == cps[j - 1]; }
    }
    assert Encodes(all, Encode(cp) + rest);
  }

  lemma {:induction false} OctetsEncode(s: seq<Byte>)
    requires Octets(s)
    ensures Rfc(s)
    decreases |s|
  {
    if s == [] {
      assert Encodes([], s) && !HasLarge([]);
    } else {
      var n :| 1 <= n <= |s| && Utf8Char(s[..n]) && Octets(s[n..]);
      OctetsEncode(s[n..]);
      CharThenRfc(s, n);
    }
  }

  lemma {:induction false} CharThenRfc(s: seq<Byte>, n: nat)
    requires n <= |s| && Utf8Char(s[..n]) && Rfc(s[n..])
    ensures Rfc(s)
  {
    var cp := CharEncodes(s[..n]);
    PrependedRfc(cp, s[n..]);
    assert s == s[..n] + s[n..];
  }

  lemma {:induction false} EncodingIsOctets(cps: seq<int>)
    requires CodePoints(cps) && !HasLarge(cps)
    ensures Octets(EncodeAll(cps))
  {
    if cps != [] {
      var s, n := EncodeAll(cps), |Encode(cps[0])|;
      EncodingIsChar(cps[0]);
      forall j | 0 <= j < |cps[1..]| ensures cps[1..][j] <= MAX_SCALAR { assert cps[j + 1] <= MAX_SCALAR; }
      EncodingIsOctets(cps[1..]);
      assert s[..n] == Encode(cps[0]) && s[n..] == EncodeAll(cps[1..]);
    }
  }

  // The grammar of section 4 and the encoding of section 3 agree.
  lemma {:induction false} OctetsIsRfc(s: seq<Byte>)
    ensures Octets(s) <==> Rfc(s)
  {
    if Octets(s) { OctetsEncode(s); }
    if Rfc(s) {
      var cps :| Encodes(cps, s) && !HasLarge(cps);
      EncodingIsOctets(cps);
    }
  }

  // The bytes F4 90 to F4 9F begin a group.
  predicate TooLargeAt(s: seq<Byte>, i: nat) { i + 1 < |s| && s[i] == 0xF4 && s[i + 1] >= 0x90 }

  lemma {:induction false} TooLargeShift(a: seq<Byte>, b: seq<Byte>, i: nat)
    ensures TooLargeAt(a + b, |a| + i) <==> TooLargeAt(b, i)
  {}

  // Inside one group, only a four-byte one above 0x10FFFF shows these bytes.
  lemma {:induction false} GroupTooLarge(cp: int, rest: seq<Byte>, i: nat)
    requires CodePoint(cp) && i < |Encode(cp)| && (i + 1 == |Encode(cp)| ==> i > 0 || cp < 0x80)
    ensures TooLargeAt(Encode(cp) + rest, i) <==> i == 0 && cp > MAX_SCALAR
  {}

  ghost predicate HasLarge(cps: seq<int>) { exists j :: 0 <= j < |cps| && cps[j] > MAX_SCALAR }

  // F4 is followed by a byte from 90 on.
  ghost predicate ShowsLarge(s: seq<Byte>) { exists i: nat :: TooLargeAt(s, i) }

  lemma {:induction false} LargeCodePointShows(cps: seq<int>)
    requires CodePoints(cps)
    ensures HasLarge(cps) ==> ShowsLarge(EncodeAll(cps))
  {
    if HasLarge(cps) {
      var e, rest := Encode(cps[0]), EncodeAll(cps[1..]);
      var j :| 0 <= j < |cps| && cps[j] > MAX_SCALAR;
      if j == 0 {
        GroupTooLarge(cps[0], rest, 0);
      } else {
        assert cps[1..][j - 1] > MAX_SCALAR;
        LargeCodePointShows(cps[1..]);
        var i: nat :| TooLargeAt(rest, i);
        TooLargeShift(e, rest, i);
      }
    }
  }

  lemma {:induction false} ShownCodePointIsLarge(cps: seq<int>)
    requires CodePoints(cps)
    ensures ShowsLarge(EncodeAll(cps)) ==> HasLarge(cps)
  {
    if ShowsLarge(EncodeAll(cps)) {
      var e, rest := Encode(cps[0]), EncodeAll(cps[1..]);
      var i: nat :| TooLargeAt(EncodeAll(cps), i);
      if i < |e| {
        GroupTooLarge(cps[0], rest, i);
      } else {
        TooLargeShift(e, rest, i - |e|);
        ShownCodePointIsLarge(cps[1..]);
        var j :| 0 <= j < |cps| - 1 && cps[1..][j] > MAX_SCALAR;
        assert cps[j + 1] > MAX_SCALAR;
      }
    }
  }

  // Everything the grammar allows is accepted; an accepted string is allowed exactly if F4 is never
  // followed by a byte from 90 on.
  lemma {:induction false} AcceptedIsRfcIff(s: seq<Byte>)
    ensures Octets(s) <==> WellFormed(s) && !ShowsLarge(s)
  {
    OctetsIsRfc(s);
    if WellFormed(s) {
      var cps :| Encodes(cps, s);
      LargeCodePointShows(cps);
      ShownCodePointIsLarge(cps);
      if Rfc(s) {
        var rfc :| Encodes(rfc, s) && !HasLarge(rfc);
        EncodingIsUnique(cps, rfc);
      }
    }
  }

  // The first accepted string that the grammar does not allow.
  lemma {:induction false} AcceptsTooLarge()
    ensures WellFormed([0xF4, 0x90, 0x80, 0x80]) && !Octets([0xF4, 0x90, 0x80, 0x80])
  {
    var s: seq<Byte> := [0xF4, 0x90, 0x80, 0x80];
    assert [0x11_0000][1..] == [];
    assert Encodes([0x11_0000], s);
    assert TooLargeAt(s, 0);
    AcceptedIsRfcIff(s);
  }
}
