/** The Bloom filter, against the set of hashes that were inserted. */
module Bloom {
  import opened Basics
  import opened Bits

  const U64 := 0x1_0000_0000_0000_0000

  // ---- the probe sequence ----

  // hash << 15 | hash >> 49, in 64 bits.
  function Delta(hash: nat): nat { Or(hash * 0x8000 % U64, hash / 0x2_0000_0000_0000) }

  // The two halves do not overlap: the word is rotated.
  lemma {:induction false} DeltaRotates(hash: nat)
    requires hash < U64
    ensures Delta(hash) == hash % 0x2_0000_0000_0000 * 0x8000 + hash / 0x2_0000_0000_0000 < U64
  {
    ShiftDropsHigh(hash);
    Pow2Fifteen();
    RotateAt(hash % 0x2_0000_0000_0000, hash / 0x2_0000_0000_0000, 15);
  }

  // The left shift loses the 15 high bits.
  lemma {:induction false} ShiftDropsHigh(hash: nat)
    ensures hash * 0x8000 % U64 == hash % 0x2_0000_0000_0000 * 0x8000
  {
    DivModUnique(hash / 0x2_0000_0000_0000, hash % 0x2_0000_0000_0000 * 0x8000, U64);
  }

  lemma {:induction false} Pow2Fifteen()
    ensures Pow2(15) == 0x8000
  {
    Pow2Small();
    Pow2Sum(7, 8);
  }

  lemma {:induction false} RotateAt(low: nat, high: nat, k: nat)
    requires high < 0x8000 == Pow2(k)
    ensures Or(low * 0x8000, high) == low * 0x8000 + high
  {
    ShlIsMul(low, k);
    OrDisjoint(low, high, k);
    OrCommutes(high, low * 0x8000);
  }

  // The i-th value of the hash, and the bit it selects.
  function Probe(hash: nat, i: nat): (r: nat)
    ensures r < U64
  {
    (hash + i * Delta(hash)) % U64
  }

  function Position(hash: nat, i: nat, m: nat): (r: nat)
    requires m > 0
    ensures r < m
  {
    Probe(hash, i) % m
  }

  lemma {:induction false} NextProbe(hash: nat, i: nat)
    ensures (Probe(hash, i) + Delta(hash)) % U64 == Probe(hash, i + 1)
  {
    OneStep(hash, i, Delta(hash));
  }

  lemma {:induction false} OneStep(hash: nat, i: nat, d: nat)
    ensures ((hash + i * d) % U64 + d) % U64 == (hash + (i + 1) * d) % U64
  {
    Distribute(i, d);
    AddModulo(hash + i * d, d);
  }

  lemma {:induction false} Distribute(i: nat, d: nat)
    ensures (i + 1) * d == i * d + d
  {}

  lemma {:induction false} AddModulo(x: nat, d: nat)
    ensures (x % U64 + d) % U64 == (x + d) % U64
  {}

  // The bits of the first k probes.
  function Probes(hash: nat, k: nat, m: nat): set<nat>
    requires m > 0
  {
    set i | 0 <= i < k :: Position(hash, i, m)
  }

  lemma {:induction false} ProbesNext(hash: nat, i: nat, m: nat)
    requires m > 0
    ensures Probes(hash, i + 1, m) == Probes(hash, i, m) + {Position(hash, i, m)}
  {
    assert Position(hash, i, m) in Probes(hash, i + 1, m);
    forall p | p in Probes(hash, i, m) ensures p in Probes(hash, i + 1, m) {
      var j :| 0 <= j < i && p == Position(hash, j, m);
    }
  }

  // ---- the bit array ----

  // The bits that are set in an array of bytes.
  function Ones(a: seq<Byte>): set<nat> {
    set p: nat | p < 8 * |a| && Bit(a[p / 8], p % 8)
  }

  lemma {:induction false} ByteBit(a: seq<Byte>, b: nat, i: nat)
    requires b < |a| && i < 8
    ensures 8 * b + i in Ones(a) <==> Bit(a[b], i)
  {
    var p := 8 * b + i;
    assert p / 8 == b && p % 8 == i;
  }

  // An array is determined by its set bits.
  lemma {:induction false} OnesDetermine(a: seq<Byte>, b: seq<Byte>)
    requires |a| == |b| && Ones(a) == Ones(b)
    ensures a == b
  {
    Pow2Small();
    forall j | 0 <= j < |a| ensures a[j] == b[j] {
      forall i | 0 <= i < 8 ensures Bit(a[j], i) <==> Bit(b[j], i) {
        ByteBit(a, j, i);
        ByteBit(b, j, i);
      }
      BitsDetermine(a[j], b[j], 8);
    }
  }

  lemma {:induction false} ZeroByteSetsNothing(a: seq<Byte>)
    requires forall j :: 0 <= j < |a| ==> a[j] == 0
    ensures Ones(a) == {}
  {
    forall p: nat | p < 8 * |a| ensures !Bit(a[p / 8], p % 8) { ZeroBit(p % 8); }
  }

  // Or-ing one byte with a power of two sets one bit.
  lemma {:induction false} SetOne(a: seq<Byte>, p: nat)
    requires p < 8 * |a|
    ensures Or(a[p / 8], Pow2(p % 8)) < 256
    ensures Ones(a[p / 8 := Or(a[p / 8], Pow2(p % 8))]) == Ones(a) + {p}
  {
    var j, i := p / 8, p % 8;
    Pow2Small();
    Pow2Monotone(i, 8);
    OrBound(a[j], Pow2(i), 8);
    var x: Byte := Or(a[j], Pow2(i));
    var b := a[j := x];
    forall q: nat | q < 8 * |a| ensures q in Ones(b) <==> q in Ones(a) || q == p {
      if q / 8 == j {
        OrBit(a[j], Pow2(i), q % 8);
        Pow2Bit(i, q % 8);
      }
    }
  }

  // ---- the filter ----

  function Max(a: nat, b: nat): nat { if a < b then b else a }

  function Min(a: nat, b: nat): nat { if a < b then a else b }

  class BloomFilter {
    const m: nat
    const k: nat
    const bytes: array<Byte>

    ghost predicate Valid() {
      bytes.Length >= 8 && m == 8 * bytes.Length && k <= 32
    }

    ghost function Contents(): set<nat>
      reads bytes
    {
      Ones(bytes[..])
    }

    // bits and probes are what the floating-point formulas ask for.
    constructor (bits: nat, probes: nat)
      ensures Valid() && fresh(bytes) && Contents() == {}
      ensures k == Min(probes, 32) && m == 8 * Max(8, (bits + 7) / 8) && m >= bits
    {
      k := Min(probes, 32);
      var n := Max(8, (bits + 7) / 8);
      m := 8 * n;
      bytes := new Byte[n](i => 0);
      new;
      ZeroByteSetsNothing(bytes[..]);
    }

    method Test(p: nat) returns (isSet: bool)
      requires Valid() && p < m
      ensures isSet <==> p in Contents()
    {
      AndBit(bytes[p / 8], p % 8);
      isSet := And(bytes[p / 8], Pow2(p % 8)) != 0;
    }

    method Set(p: nat)
      requires Valid() && p < m
      modifies bytes
      ensures Contents() == old(Contents()) + {p}
    {
      SetOne(bytes[..], p);
      ghost var before := bytes[..];
      bytes[p / 8] := Or(bytes[p / 8], Pow2(p % 8));
      assert bytes[..] == before[p / 8 := bytes[p / 8]];
    }

    // Every probed bit is set.
    method LookupHash(hash: nat) returns (found: bool)
      requires Valid() && hash < U64
      ensures found <==> Probes(hash, k, m) <= Contents()
    {
      var delta, h := Delta(hash), hash;
      for i := 0 to k
        invariant h == Probe(hash, i) && Probes(hash, i, m) <= Contents()
      {
        var isSet := Test(h % m);
        ProbesNext(hash, i, m);
        if !isSet {
          assert Position(hash, i, m) in Probes(hash, k, m);
          return false;
        }
        NextProbe(hash, i);
        h := (h + delta) % U64;
      }
      return true;
    }

    method InsertHash(hash: nat)
      requires Valid() && hash < U64
      modifies bytes
      ensures Contents() == old(Contents()) + Probes(hash, k, m)
    {
      var delta, h := Delta(hash), hash;
      for i := 0 to k
        invariant h == Probe(hash, i) && Contents() == old(Contents()) + Probes(hash, i, m)
      {
        Set(h % m);
        ProbesNext(hash, i, m);
        NextProbe(hash, i);
        h := (h + delta) % U64;
      }
    }

    // The answer is that of LookupHash before the call, and the array is the one InsertHash
    // leaves, although later probes may meet bits that earlier ones have just set.
    method LookupAndInsertHash(hash: nat) returns (flag: bool)
      requires Valid() && hash < U64
      modifies bytes
      ensures flag <==> Probes(hash, k, m) <= old(Contents())
      ensures Contents() == old(Contents()) + Probes(hash, k, m)
    {
      flag := true;
      var delta, h := Delta(hash), hash;
      for i := 0 to k
        invariant h == Probe(hash, i) && Contents() == old(Contents()) + Probes(hash, i, m)
        invariant flag <==> Probes(hash, i, m) <= old(Contents())
      {
        ProbesNext(hash, i, m);
        var isSet := Test(h % m);
        if !isSet {
          flag := false;
          Set(h % m);
        }
        NextProbe(hash, i);
        h := (h + delta) % U64;
      }
    }
  }

  // ---- any run of calls ----

  datatype Call = Lookup(hash: nat) | Insert(hash: nat) | LookupAndInsert(hash: nat)

  predicate Words(calls: seq<Call>) { forall i :: 0 <= i < |calls| ==> calls[i].hash < U64 }

  // The reference: a set of hashes.
  function Inserted(calls: seq<Call>): set<nat> {
    set i | 0 <= i < |calls| && !calls[i].Lookup? :: calls[i].hash
  }

  // The bits that the probes of these hashes cover.
  function Cover(hashes: set<nat>, k: nat, m: nat): set<nat>
    requires m > 0
  {
    set h, p | h in hashes && p in Probes(h, k, m) :: p
  }

  lemma {:induction false} InsertedNext(calls: seq<Call>, i: nat)
    requires i < |calls|
    ensures Inserted(calls[..i + 1]) ==
      Inserted(calls[..i]) + if calls[i].Lookup? then {} else {calls[i].hash}
  {
    var a, b := calls[..i], calls[..i + 1];
    forall h | h in Inserted(a) ensures h in Inserted(b) {
      var j :| 0 <= j < i && !a[j].Lookup? && a[j].hash == h;
      assert b[j] == a[j];
    }
    forall h | h in Inserted(b) ensures h in Inserted(a) || (!calls[i].Lookup? && h == calls[i].hash) {
      var j :| 0 <= j < i + 1 && !b[j].Lookup? && b[j].hash == h;
      if j < i { assert a[j] == b[j]; }
    }
    if !calls[i].Lookup? { assert b[i].hash in Inserted(b); }
  }

  lemma {:induction false} CoverNext(hashes: set<nat>, h: nat, k: nat, m: nat)
    requires m > 0
    ensures Cover(hashes + {h}, k, m) == Cover(hashes, k, m) + Probes(h, k, m)
  {}

  // There is never a false negative.
  lemma {:induction false} InsertedIsCovered(hashes: set<nat>, h: nat, k: nat, m: nat)
    requires m > 0 && h in hashes
    ensures Probes(h, k, m) <= Cover(hashes, k, m)
  {}

  // What call i answers: whether its probes are covered by those of the hashes inserted before.
  ghost predicate AnswerOk(f: BloomFilter, calls: seq<Call>, i: nat, answer: bool)
    requires f.m > 0 && i < |calls|
  {
    var before, h := Inserted(calls[..i]), calls[i].hash;
    && (!calls[i].Insert? ==> (answer <==> Probes(h, f.k, f.m) <= Cover(before, f.k, f.m)))
    && (!calls[i].Insert? && h in before ==> answer)
  }

  method Perform(f: BloomFilter, call: Call) returns (answer: bool)
    requires f.Valid() && call.hash < U64
    modifies f.bytes
    ensures !call.Insert? ==> (answer <==> Probes(call.hash, f.k, f.m) <= old(f.Contents()))
    ensures f.Contents() == old(f.Contents()) + if call.Lookup? then {} else Probes(call.hash, f.k, f.m)
  {
    answer := true;
    match call
    case Lookup(hash) => answer := f.LookupHash(hash);
    case Insert(hash) => f.InsertHash(hash);
    case LookupAndInsert(hash) => answer := f.LookupAndInsertHash(hash);
  }

  // Any run on a fresh filter. The bits depend only on the set of hashes inserted.
  method Replay(bits: nat, probes: nat, calls: seq<Call>) returns (f: BloomFilter, answers: seq<bool>)
    requires Words(calls)
    ensures fresh(f) && fresh(f.bytes) && f.Valid() && f.k == Min(probes, 32) && f.m == 8 * Max(8, (bits + 7) / 8)
    ensures f.Contents() == Cover(Inserted(calls), f.k, f.m)
    ensures |answers| == |calls| && forall i :: 0 <= i < |calls| ==> AnswerOk(f, calls, i, answers[i])
  {
    f := new BloomFilter(bits, probes);
    answers := [];
    for i := 0 to |calls|
      invariant f.Contents() == Cover(Inserted(calls[..i]), f.k, f.m)
      invariant |answers| == i && forall j :: 0 <= j < i ==> AnswerOk(f, calls, j, answers[j])
    {
      var answer := Perform(f, calls[i]);
      Recorded(f, calls, i, answer);
      answers := answers + [answer];
    }
    assert calls[..|calls|] == calls;
  }

  lemma {:induction false} Recorded(f: BloomFilter, calls: seq<Call>, i: nat, answer: bool)
    requires i < |calls| && f.m > 0
    requires !calls[i].Insert? ==>
      (answer <==> Probes(calls[i].hash, f.k, f.m) <= Cover(Inserted(calls[..i]), f.k, f.m))
    ensures AnswerOk(f, calls, i, answer)
    ensures Cover(Inserted(calls[..i + 1]), f.k, f.m) ==
      Cover(Inserted(calls[..i]), f.k, f.m) + if calls[i].Lookup? then {} else Probes(calls[i].hash, f.k, f.m)
  {
    var before, h := Inserted(calls[..i]), calls[i].hash;
    InsertedNext(calls, i);
    CoverNext(before, h, f.k, f.m);
    if h in before { InsertedIsCovered(before, h, f.k, f.m); }
  }

  // Order and repetition do not matter: the same set of hashes gives the same bytes.
  method ReplayTwice(bits: nat, probes: nat, a: seq<Call>, b: seq<Call>) returns (f: BloomFilter, g: BloomFilter)
    requires Words(a) && Words(b) && Inserted(a) == Inserted(b)
    ensures f.Valid() && f.k == Min(probes, 32) && f.m == 8 * Max(8, (bits + 7) / 8)
    ensures g.Valid() && g.k == f.k && g.m == f.m
    ensures f.Contents() == Cover(Inserted(a), f.k, f.m) && g.Contents() == Cover(Inserted(b), g.k, g.m)
    ensures f.bytes != g.bytes && f.bytes[..] == g.bytes[..]
  {
    var answers;
    f, answers := Replay(bits, probes, a);
    g, answers := Replay(bits, probes, b);
    OnesDetermine(f.bytes[..], g.bytes[..]);
  }
}
