/** Characters, searches and percent coding for the URL parser. */
module UrlText {
  import opened Basics
  import opened Bits

  // ---- characters ----

  // White space of the C locale: blank, and tab to carriage return.
  const SPACES: set<char> := {' ', '\t', '\n', '\U{0B}', '\U{0C}', '\r'}

  predicate IsAlpha(c: char) { 'a' <= c <= 'z' || 'A' <= c <= 'Z' }

  predicate IsDigit(c: char) { '0' <= c <= '9' }

  predicate IsUnreserved(c: char) {
    IsAlpha(c) || IsDigit(c) || c == '-' || c == '.' || c == '_' || c == '~'
  }

  function HexToLetter(c: char): char {
    if c as int < 10 then (c as int + 48) as char
    else if c as int < 16 then (c as int - 10 + 65) as char
    else c
  }

  function LetterToHex(c: char): char {
    if '0' <= c <= '9' then (c as int - 48) as char
    else if 'a' <= c <= 'f' then (c as int + 10 - 97) as char
    else if 'A' <= c <= 'F' then (c as int + 10 - 65) as char
    else c
  }

  function ToLower(c: char): char { if 'A' <= c <= 'Z' then (c as int + 32) as char else c }

  function Lower(s: string): string { seq(|s|, i requires 0 <= i < |s| => ToLower(s[i])) }

  predicate Digits(s: string) { forall i :: 0 <= i < |s| ==> IsDigit(s[i]) }

  predicate Unreserved(s: string) { forall i :: 0 <= i < |s| ==> IsUnreserved(s[i]) }

  // ---- searches ----

  predicate Avoids(s: string, cs: set<char>) { forall i :: 0 <= i < |s| ==> s[i] !in cs }

  // The position of the first character out of cs, or the length.
  function Find(s: string, cs: set<char>): (r: nat)
    ensures r <= |s| && Avoids(s[..r], cs) && (r < |s| ==> s[r] in cs)
  {
    if s == "" || s[0] in cs then 0
    else
      var r := Find(s[1..], cs);
      assert s[..r + 1] == [s[0]] + s[1..][..r];
      r + 1
  }

  lemma {:induction false} FindIs(a: string, b: string, cs: set<char>)
    requires Avoids(a, cs) && (b == "" || b[0] in cs)
    ensures Find(a + b, cs) == |a|
  {
    if a == "" {
      assert a + b == b;
    } else {
      assert (a + b)[0] == a[0] && (a + b)[1..] == a[1..] + b;
      FindIs(a[1..], b, cs);
    }
  }

  lemma {:induction false} AvoidsConcat(a: string, b: string, cs: set<char>)
    ensures Avoids(a + b, cs) <==> Avoids(a, cs) && Avoids(b, cs)
  {
    if Avoids(a + b, cs) {
      forall i | 0 <= i < |a| ensures a[i] !in cs { assert (a + b)[i] == a[i]; }
      forall i | 0 <= i < |b| ensures b[i] !in cs { assert (a + b)[|a| + i] == b[i]; }
    }
  }

  lemma {:induction false} UnreservedAvoids(s: string, cs: set<char>)
    requires Unreserved(s) && forall c :: c in cs ==> !IsUnreserved(c)
    ensures Avoids(s, cs)
  {
    forall i | 0 <= i < |s| ensures s[i] !in cs { assert IsUnreserved(s[i]); }
  }

  // The position of the first "://", or the length.
  function FindMark(s: string): (r: nat)
    ensures r <= |s| && (r < |s| ==> r + 3 <= |s|)
  {
    if |s| < 3 then |s|
    else if s[0] == ':' && s[1] == '/' && s[2] == '/' then 0
    else 1 + FindMark(s[1..])
  }

  lemma {:induction false} MarkAfter(a: string, b: string)
    requires Avoids(a, {':'})
    ensures FindMark(a + "://" + b) == |a|
  {
    var s := a + "://" + b;
    if a == "" {
      assert s[0] == ':' && s[1] == '/' && s[2] == '/';
    } else {
      assert s[0] == a[0];
      MarkAfter(a[1..], b);
      assert s[1..] == a[1..] + "://" + b;
    }
  }

  predicate MarkAt(s: string, i: nat) { i + 2 < |s| && s[i] == ':' && s[i + 1] == '/' && s[i + 2] == '/' }

  // The position found is that of a mark; none is found exactly if there is none.
  lemma {:induction false} MarkIff(s: string)
    ensures FindMark(s) < |s| ==> MarkAt(s, FindMark(s))
    ensures FindMark(s) < |s| <==> exists i: nat :: MarkAt(s, i)
  {
    if |s| >= 3 && !MarkAt(s, 0) {
      MarkIff(s[1..]);
      if i: nat :| MarkAt(s, i) { assert MarkAt(s[1..], i - 1); }
      if i: nat :| MarkAt(s[1..], i) { assert MarkAt(s, i + 1); }
    }
  }

  // ---- trimming ----

  function TrimmedFront(s: string): string {
    if s != "" && s[0] in SPACES then TrimmedFront(s[1..]) else s
  }

  function TrimmedBack(s: string): string {
    if s != "" && s[|s| - 1] in SPACES then TrimmedBack(s[..|s| - 1]) else s
  }

  function Trimmed(s: string): string { TrimmedFront(TrimmedBack(s)) }

  predicate OnlySpaces(s: string) { forall i :: 0 <= i < |s| ==> s[i] in SPACES }

  lemma {:induction false} FrontSplits(s: string) returns (pre: string)
    ensures s == pre + TrimmedFront(s) && OnlySpaces(pre)
    ensures var r := TrimmedFront(s); r != "" ==> r[0] !in SPACES && r[|r| - 1] == s[|s| - 1]
  {
    pre := "";
    if s != "" && s[0] in SPACES {
      pre := FrontSplits(s[1..]);
      pre := [s[0]] + pre;
    }
  }

  lemma {:induction false} BackSplits(s: string) returns (post: string)
    ensures s == TrimmedBack(s) + post && OnlySpaces(post)
    ensures var r := TrimmedBack(s); r != "" ==> r[|r| - 1] !in SPACES
  {
    post := "";
    if s != "" && s[|s| - 1] in SPACES {
      post := BackSplits(s[..|s| - 1]);
      post := post + [s[|s| - 1]];
    }
  }

  // Only white space is cut off, and none is left at the ends.
  lemma {:induction false} TrimmedSplits(s: string) returns (pre: string, post: string)
    ensures s == pre + Trimmed(s) + post && OnlySpaces(pre) && OnlySpaces(post)
    ensures var r := Trimmed(s); r != "" ==> r[0] !in SPACES && r[|r| - 1] !in SPACES
  {
    post := BackSplits(s);
    pre := FrontSplits(TrimmedBack(s));
  }

  lemma {:induction false} BackAfter(a: string, b: string)
    requires a != "" && a[|a| - 1] !in SPACES
    ensures TrimmedBack(a + b) == a + TrimmedBack(b)
  {
    if b == "" {
      assert a + b == a;
    } else {
      assert (a + b)[|a + b| - 1] == b[|b| - 1] && (a + b)[..|a + b| - 1] == a + b[..|b| - 1];
      BackAfter(a, b[..|b| - 1]);
    }
  }

  lemma {:induction false} FrontBefore(a: string, b: string)
    requires b != "" && b[0] !in SPACES
    ensures TrimmedFront(a + b) == TrimmedFront(a) + b
  {
    if a == "" {
      assert a + b == b;
    } else {
      assert (a + b)[0] == a[0] && (a + b)[1..] == a[1..] + b;
      FrontBefore(a[1..], b);
    }
  }

  // A middle part without blanks at its ends stops the trimming on both sides.
  lemma {:induction false} TrimmedAround(a: string, m: string, b: string)
    requires m != "" && m[0] !in SPACES && m[|m| - 1] !in SPACES
    ensures Trimmed(a + m + b) == TrimmedFront(a) + m + TrimmedBack(b)
  {
    assert (a + m)[|a + m| - 1] == m[|m| - 1];
    BackAfter(a + m, b);
    Associate(a, m, TrimmedBack(b));
    FrontBefore(a, m + TrimmedBack(b));
    Associate(TrimmedFront(a), m, TrimmedBack(b));
  }

  lemma {:induction false} TrimmedAfter(m: string, b: string)
    requires m != "" && m[0] !in SPACES && m[|m| - 1] !in SPACES
    ensures Trimmed(m + b) == m + TrimmedBack(b)
  {
    BackAfter(m, b);
    assert (m + TrimmedBack(b))[0] == m[0];
  }

  // Trimming leaves a string as it is exactly if it has no blank at that end.
  lemma {:induction false} TrimmedShorter(s: string)
    ensures |TrimmedBack(s)| <= |s| && |TrimmedFront(s)| <= |s|
    ensures |TrimmedBack(s)| == |s| <==> s == "" || s[|s| - 1] !in SPACES
    ensures |TrimmedFront(s)| == |s| <==> s == "" || s[0] !in SPACES
  {
    var post := BackSplits(s);
    var pre := FrontSplits(s);
  }

  method TrimFront(s: string) returns (r: string)
    ensures r == TrimmedFront(s)
  {
    assert s[0..] == s;
    for i := 0 to |s|
      invariant TrimmedFront(s) == TrimmedFront(s[i..])
    {
      if s[i] !in SPACES { return s[i..]; }
      assert s[i..][1..] == s[i + 1..];
    }
    return "";
  }

  method TrimBack(s: string) returns (r: string)
    ensures r == TrimmedBack(s)
  {
    assert s[..|s|] == s;
    for i := |s| downto 0
      invariant TrimmedBack(s) == TrimmedBack(s[..i])
    {
      if s[i] !in SPACES { return s[..i + 1]; }
      assert s[..i + 1][..i] == s[..i];
    }
    return "";
  }

  method Trim(s: string) returns (r: string)
    ensures r == Trimmed(s)
  {
    r := TrimBack(s);
    r := TrimFront(r);
  }

  // ---- percent coding ----

  function EncodedChar(c: char): string {
    if IsUnreserved(c) then [c]
    else ['%', HexToLetter((c as int / 16 % 16) as char), HexToLetter((c as int % 16) as char)]
  }

  function Encoded(s: string): string {
    if s == "" then "" else EncodedChar(s[0]) + Encoded(s[1..])
  }

  lemma {:induction false} Associate(a: string, b: string, c: string)
    ensures a + b + c == a + (b + c)
  {}

  method PercentEncode(s: string) returns (r: string)
    ensures r == Encoded(s)
  {
    r := "";
    assert s[0..] == s;
    for i := 0 to |s|
      invariant r + Encoded(s[i..]) == Encoded(s)
    {
      assert s[i..][1..] == s[i + 1..];
      ghost var done := r;
      if IsUnreserved(s[i]) {
        r := r + [s[i]];
      } else {
        r := r + ['%'];
        r := r + [HexToLetter((s[i] as int / 16 % 16) as char)];
        r := r + [HexToLetter((s[i] as int % 16) as char)];
      }
      assert r == done + EncodedChar(s[i]);
      Associate(done, EncodedChar(s[i]), Encoded(s[i + 1..]));
    }
  }

  // The character that two letters after a percent sign stand for. The first one is shifted
  // out of the eight bits of the result.
  function EscapedChar(x: char, y: char): char {
    var high := LetterToHex(x) as int * 0x100 % 0x100;
    assert high == 0;
    Or(high, LetterToHex(y) as int) as char
  }

  function Prefixed(s: string, r: Option<string>): Option<string> {
    match r case None => None case Some(t) => Some(s + t)
  }

  function Decoded(s: string): Option<string> {
    if s == "" then Some("")
    else if s[0] == '%' then
      if |s| < 3 then None else Prefixed([EscapedChar(s[1], s[2])], Decoded(s[3..]))
    else Prefixed([if s[0] == '+' then ' ' else s[0]], Decoded(s[1..]))
  }

  lemma {:induction false} PrefixedTwice(a: string, b: string, r: Option<string>)
    ensures Prefixed(a, Prefixed(b, r)) == Prefixed(a + b, r)
  {
    if r.Some? { assert a + (b + r.value) == a + b + r.value; }
  }

  lemma {:induction false} PrefixedEmpty(r: Option<string>)
    ensures Prefixed("", r) == r
  {
    if r.Some? { assert "" + r.value == r.value; }
  }

  method PercentDecode(s: string) returns (r: Option<string>)
    ensures r == Decoded(s)
  {
    var i, res := 0, "";
    assert s[0..] == s;
    PrefixedEmpty(Decoded(s));
    while i < |s|
      invariant 0 <= i <= |s|
      invariant Decoded(s) == Prefixed(res, Decoded(s[i..]))
    {
      if s[i] == '%' {
        if |s| - i < 3 { return None; }
        var c := EscapedChar(s[i + 1], s[i + 2]);
        assert s[i..][3..] == s[i + 3..] && s[i..][1] == s[i + 1] && s[i..][2] == s[i + 2];
        PrefixedTwice(res, [c], Decoded(s[i + 3..]));
        res := res + [c];
        i := i + 3;
      } else {
        var c := if s[i] == '+' then ' ' else s[i];
        assert s[i..][1..] == s[i + 1..];
        PrefixedTwice(res, [c], Decoded(s[i + 1..]));
        res := res + [c];
        i := i + 1;
      }
    }
    assert res + "" == res;
    return Some(res);
  }

  // ---- what coding keeps ----

  // What is left of a character: all of it if it is unreserved, the low four bits if not.
  function CleanChar(c: char): char { if IsUnreserved(c) then c else (c as int % 16) as char }

  function Clean(s: string): string { seq(|s|, i requires 0 <= i < |s| => CleanChar(s[i])) }

  lemma {:induction false} HexDigit(n: int)
    requires 0 <= n < 16
    ensures LetterToHex(HexToLetter(n as char)) == n as char && IsUnreserved(HexToLetter(n as char))
  {}

  lemma {:induction false} EscapedEncoding(c: char)
    requires !IsUnreserved(c)
    ensures var e := EncodedChar(c); e[0] == '%' && EscapedChar(e[1], e[2]) == CleanChar(c)
  {
    HexDigit(c as int / 16 % 16);
    HexDigit(c as int % 16);
  }

  lemma {:induction false} CleanStep(s: string)
    requires s != ""
    ensures Clean(s) == [CleanChar(s[0])] + Clean(s[1..])
  {}

  // Decoding what was encoded.
  lemma {:induction false} DecodedEncoded(s: string)
    ensures Decoded(Encoded(s)) == Some(Clean(s))
  {
    if s == "" {
      assert Clean(s) == "";
    } else {
      var e := Encoded(s);
      DecodedEncoded(s[1..]);
      CleanStep(s);
      if IsUnreserved(s[0]) {
        assert e[0] == s[0] && e[1..] == Encoded(s[1..]);
      } else {
        EscapedEncoding(s[0]);
        assert e[..3] == EncodedChar(s[0]) && e[3..] == Encoded(s[1..]);
        assert e[0] == e[..3][0] && e[1] == e[..3][1] && e[2] == e[..3][2];
      }
    }
  }

  // A string that survives: every character is unreserved or one of the first sixteen.
  predicate Survives(s: string) {
    forall i :: 0 <= i < |s| ==> IsUnreserved(s[i]) || s[i] as int < 16
  }

  lemma {:induction false} CleanIff(s: string)
    ensures Clean(s) == s <==> Survives(s)
    ensures Survives(Clean(s))
  {
    var t := Clean(s);
    if t == s {
      forall i | 0 <= i < |s| ensures IsUnreserved(s[i]) || s[i] as int < 16 { assert t[i] == CleanChar(s[i]); }
    }
    if Survives(s) {
      forall i | 0 <= i < |s| ensures t[i] == s[i] {}
    }
  }

  lemma {:induction false} PercentRoundTripIff(s: string)
    ensures Decoded(Encoded(s)) == Some(s) <==> Survives(s)
  {
    DecodedEncoded(s);
    CleanIff(s);
  }

  // The blank itself is lost.
  lemma {:induction false} PercentLosesBlank()
    ensures Decoded(Encoded(" ")) == Some([0 as char])
  {
    DecodedEncoded(" ");
    assert Clean(" ") == [0 as char];
  }

  predicate Coded(s: string) { forall i :: 0 <= i < |s| ==> IsUnreserved(s[i]) || s[i] == '%' }

  lemma {:induction false} EncodedIsCoded(s: string)
    ensures Coded(Encoded(s))
  {
    if s != "" {
      EncodedIsCoded(s[1..]);
      HexDigit(s[0] as int / 16 % 16);
      HexDigit(s[0] as int % 16);
      assert Coded(EncodedChar(s[0]));
    }
  }

  lemma {:induction false} EncodedAvoids(s: string, cs: set<char>)
    requires forall c :: c in cs ==> !IsUnreserved(c) && c != '%'
    ensures Avoids(Encoded(s), cs)
  {
    EncodedIsCoded(s);
    var e := Encoded(s);
    forall i | 0 <= i < |e| ensures e[i] !in cs { assert IsUnreserved(e[i]) || e[i] == '%'; }
  }

  lemma {:induction false} EncodedEmptyIff(s: string)
    ensures Encoded(s) == "" <==> s == ""
  {}

  // Text without escapes is read as it stands.
  lemma {:induction false} DecodedPlain(s: string)
    requires Plain(s)
    ensures Decoded(s) == Some(s)
  {
    if s != "" {
      assert s[0] !in {'%', '+'};
      forall i | 0 <= i < |s[1..]| ensures s[1..][i] !in {'%', '+'} { assert s[1..][i] == s[i + 1]; }
      DecodedPlain(s[1..]);
      assert s == [s[0]] + s[1..];
    }
  }

  // Characters that neither decoding nor lower-casing can bring in.
  predicate Solid(cs: set<char>) { forall c :: c in cs ==> c as int > 32 && !IsAlpha(c) }

  lemma {:induction false} DecodedAvoids(s: string, cs: set<char>)
    requires Avoids(s, cs) && Solid(cs) && Decoded(s).Some?
    ensures Avoids(Decoded(s).value, cs)
  {
    if s != "" {
      var n := if s[0] == '%' then 3 else 1;
      forall i | 0 <= i < |s[n..]| ensures s[n..][i] !in cs { assert s[n..][i] == s[n + i]; }
      DecodedAvoids(s[n..], cs);
      assert s[n - 1] !in cs;
    }
  }

  lemma {:induction false} LowerAvoids(s: string, cs: set<char>)
    requires Avoids(s, cs) && Solid(cs)
    ensures Avoids(Lower(s), cs) && Lower(Lower(s)) == Lower(s)
  {
    forall i | 0 <= i < |s| ensures Lower(s)[i] !in cs { assert s[i] !in cs; }
  }

  // Decoding never lengthens, and keeps the length only without escapes.
  lemma {:induction false} DecodedShorter(s: string)
    requires Decoded(s).Some?
    ensures |Decoded(s).value| <= |s|
    ensures |Decoded(s).value| == |s| ==> Avoids(s, {'%'})
  {
    if s != "" {
      var n := if s[0] == '%' then 3 else 1;
      DecodedShorter(s[n..]);
      if |Decoded(s).value| == |s| {
        forall i | 0 <= i < |s| ensures s[i] !in {'%'} { if i > 0 { assert s[i] == s[1..][i - 1]; } }
      }
    }
  }

  // Text that is read as it stands.
  predicate Plain(s: string) { Avoids(s, {'%', '+'}) }

  lemma {:induction false} DecodedPlus(s: string)
    requires Avoids(s, {'%'})
    ensures Decoded(s).Some? && |Decoded(s).value| == |s|
    ensures forall i :: 0 <= i < |s| ==> Decoded(s).value[i] == if s[i] == '+' then ' ' else s[i]
  {
    if s != "" {
      assert s[0] !in {'%'};
      forall i | 0 <= i < |s[1..]| ensures s[1..][i] !in {'%'} { assert s[1..][i] == s[i + 1]; }
      DecodedPlus(s[1..]);
    }
  }

  // Only plain text comes back from decoding, also if it is turned into lower case.
  lemma {:induction false} DecodedFixed(s: string)
    requires Decoded(s).Some? && (Decoded(s).value == s || Lower(Decoded(s).value) == s)
    ensures Plain(s)
  {
    DecodedShorter(s);
    DecodedPlus(s);
    var v := Decoded(s).value;
    forall i | 0 <= i < |s| ensures s[i] !in {'%', '+'} {
      assert s[i] !in {'%'} && v[i] == if s[i] == '+' then ' ' else s[i];
      assert s[i] == v[i] || s[i] == ToLower(v[i]);
    }
  }

  lemma {:induction false} DecodedFirst(s: string)
    requires s != "" && s[0] != '%' && s[0] != '+' && Decoded(s).Some?
    ensures Decoded(s).value != "" && Decoded(s).value[0] == s[0]
  {}
}
