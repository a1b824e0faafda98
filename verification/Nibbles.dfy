/**
  A 64-bit word as sixteen nibbles (server/enclave/masstree/include/permutation.h): the arithmetic of
  its shifts and masks against plain sequence updates.
 */
module Nibbles {
  const NIBBLES: nat := 16
  const WORD_LIMIT: nat := 0x1_0000_0000_0000_0000

  type Nibble = n: nat | n < 16

  function Pow16(k: nat): (p: nat)
    ensures p >= 1
  {
    if k == 0 then 1 else 16 * Pow16(k - 1)
  }

  /** The last `k` nibbles of `n`, leftmost first. */
  function Unpack(n: nat, k: nat): (s: seq<Nibble>)
    ensures |s| == k
  {
    if k == 0 then [] else Unpack(n / 16, k - 1) + [n % 16]
  }

  function Pack(s: seq<Nibble>): (n: nat)
    ensures n < Pow16(|s|)
  {
    if s == [] then 0 else Pack(s[..|s| - 1]) * 16 + s[|s| - 1]
  }

  lemma {:induction false} UnpackPack(s: seq<Nibble>)
    ensures Unpack(Pack(s), |s|) == s
  {
    if s != [] {
      UnpackPack(s[..|s| - 1]);
    }
  }

  lemma {:induction false} PackUnpack(n: nat, k: nat)
    requires n < Pow16(k)
    ensures Pack(Unpack(n, k)) == n
  {
    if k > 0 {
      PackUnpack(n / 16, k - 1);
      assert Unpack(n, k)[..k - 1] == Unpack(n / 16, k - 1);
    }
  }

  lemma {:induction false} PackConcat(a: seq<Nibble>, b: seq<Nibble>)
    ensures Pack(a + b) == Pack(a) * Pow16(|b|) + Pack(b)
  {
    if b == [] {
      assert a + b == a;
    } else {
      var front := b[..|b| - 1];
      PackConcat(a, front);
      assert (a + b)[..|a + b| - 1] == a + front;
      Distribute(Pack(a), Pow16(|front|), Pack(front));
    }
  }

  lemma Distribute(a: nat, p: nat, b: nat)
    ensures (a * p + b) * 16 == a * (16 * p) + b * 16
  {
  }

  lemma WordLimit()
    ensures Pow16(NIBBLES) == WORD_LIMIT
  {
    assert Pow16(8) == 0x1_0000_0000;
    assert Pow16(12) == 0x1_0000_0000_0000;
  }

  /** A word below the limit is determined by its nibbles, and every sixteen nibbles are a word. */
  lemma WordNibbles(body: nat)
    requires body < WORD_LIMIT
    ensures Pack(Unpack(body, NIBBLES)) == body
  {
    WordLimit();
    PackUnpack(body, NIBBLES);
  }

  lemma Quotient(q: nat, p: nat, r: nat)
    requires r < p
    ensures (q * p + r) / p == q && (q * p + r) % p == r
  {
    var n := q * p + r;
    if n / p < q {
      Gap(n / p, q, p);
    } else if n / p > q {
      Gap(q, n / p, p);
    }
  }

  lemma Gap(a: nat, b: nat, p: nat)
    requires a < b
    ensures a * p + p <= b * p
  {
    var e: nat := b - a - 1;
    assert b * p == a * p + (1 + e) * p;
    assert (1 + e) * p == p + e * p;
  }

  // ---------------------------------------------------------------- the word operations

  /** `(body >> (15 - i) * 4) & 0b1111`. */
  function Get(body: nat, i: nat): Nibble
    requires i < NIBBLES
  {
    (body / Pow16(NIBBLES - 1 - i)) % 16
  }

  /**
    setKeyIndex: the nibbles left of `i` by two shifts, those right of it by a mask, the new one by a
    multiplication.
   */
  function Set(body: nat, i: nat, x: Nibble): int
    requires i < NIBBLES
  {
    var left := if i == 0 then 0 else (body / Pow16(NIBBLES - i)) * Pow16(NIBBLES - i);
    var right := body % Pow16(NIBBLES - 1 - i);
    var middle := x * Pow16(NIBBLES - 1 - i);
    left + middle + right
  }

  /** setNumKeys: the low nibble by two shifts and an or. */
  function SetCount(body: nat, num: Nibble): nat { (body / 16) * 16 + num }

  lemma {:induction false} PackFacts(a: seq<Nibble>, b: seq<Nibble>)
    ensures Pack(b) < Pow16(|b|) && (a == [] ==> Pack(a) == 0) && (a != [] ==> Pack(a) % 16 == a[|a| - 1])
  {
  }

  lemma LastDigit(a: seq<Nibble>, b: seq<Nibble>)
    requires a != []
    ensures (Pack(a + b) / Pow16(|b|)) % 16 == a[|a| - 1]
  {
    PackFacts(a, b);
    PackConcat(a, b);
    hide Pack, Pow16;
    Quotient(Pack(a), Pow16(|b|), Pack(b));
  }

  lemma {:induction false} GetIs(body: nat, i: nat)
    requires body < WORD_LIMIT && i < NIBBLES
    ensures Get(body, i) == Unpack(body, NIBBLES)[i]
  {
    var s := Unpack(body, NIBBLES);
    WordNibbles(body);
    hide Pack, Unpack, Pow16;
    LastDigit(s[..i + 1], s[i + 1..]);
    assert s == s[..i + 1] + s[i + 1..];
  }

  /** The word cut at nibble `i`. */
  lemma {:induction false} Parts(a: seq<Nibble>, d: Nibble, b: seq<Nibble>)
    ensures Pack(a + [d] + b) == Pack(a) * (16 * Pow16(|b|)) + (d * Pow16(|b|) + Pack(b))
    ensures Pow16(|b| + 1) == 16 * Pow16(|b|)
  {
    var ad := a + [d];
    assert ad[..|a|] == a;
    assert Pack(ad) == Pack(a) * 16 + d;
    PackConcat(ad, b);
    hide Pack;
    Regroup(Pack(a), d, Pow16(|b|), Pack(b));
  }

  /** Clearing digit `d` of weight `p` and putting `x` there. */
  lemma PutDigit(a: nat, d: Nibble, p: nat, r: nat, x: Nibble)
    requires r < p
    ensures var body := a * (16 * p) + (d * p + r);
            (body / (16 * p)) * (16 * p) + x * p + body % p == a * (16 * p) + (x * p + r)
  {
    Below(d, p, r);
    Quotient(a, 16 * p, d * p + r);
    Regroup(a, d, p, r);
    Quotient(a * 16 + d, p, r);
  }

  lemma {:induction false} SetParts(a: seq<Nibble>, d: Nibble, b: seq<Nibble>, x: Nibble)
    requires |a| + 1 + |b| == NIBBLES
    ensures Set(Pack(a + [d] + b), |a|, x) == Pack(a + [x] + b)
  {
    Parts(a, d, b);
    Parts(a, x, b);
    PackFacts(a, b);
    WholeWord(a, d, b);
    hide Pack, Pow16;
    PutDigit(Pack(a), d, Pow16(|b|), Pack(b), x);
  }

  /** With nothing to the left of the digit the word is below its weight. */
  lemma {:induction false} WholeWord(a: seq<Nibble>, d: Nibble, b: seq<Nibble>)
    ensures a == [] ==> Pack(a + [d] + b) / Pow16(|b| + 1) == 0
  {
    PackFacts([], a + [d] + b);
    hide Pack;
    if a == [] {
      Quotient(0, Pow16(|b| + 1), Pack(a + [d] + b));
    }
  }

  lemma SetNibbles(s: seq<Nibble>, i: nat, x: Nibble)
    requires |s| == NIBBLES && i < NIBBLES
    ensures Set(Pack(s), i, x) == Pack(s[i := x])
  {
    hide Pack, Set;
    SetParts(s[..i], s[i], s[i + 1..], x);
    assert s[..i] + [s[i]] + s[i + 1..] == s;
    assert s[..i] + [x] + s[i + 1..] == s[i := x];
  }

  /** Setting a nibble of the word updates exactly that nibble. */
  lemma SetIs(body: nat, i: nat, x: Nibble)
    requires body < WORD_LIMIT && i < NIBBLES
    ensures 0 <= Set(body, i, x) < WORD_LIMIT
    ensures Unpack(Set(body, i, x), NIBBLES) == Unpack(body, NIBBLES)[i := x]
  {
    var s := Unpack(body, NIBBLES);
    var s' := s[i := x];
    WordNibbles(body);
    SetNibbles(s, i, x);
    WordLimit();
    PackFacts([], s');
    UnpackPack(s');
    hide Pack, Unpack, Pow16, Set;
  }

  lemma Below(d: Nibble, p: nat, r: nat)
    requires r < p
    ensures d * p + r < 16 * p && d * p >= 0
  {
    assert d * p <= 15 * p;
  }

  lemma Regroup(a: nat, d: nat, p: nat, r: nat)
    ensures (a * 16 + d) * p + r == a * (16 * p) + (d * p + r)
  {
  }

  lemma SetCountIs(body: nat, num: Nibble)
    requires body < WORD_LIMIT
    ensures SetCount(body, num) < WORD_LIMIT
    ensures Unpack(SetCount(body, num), NIBBLES) == Unpack(body, NIBBLES)[NIBBLES - 1 := num]
  {
    assert SetCount(body, num) / 16 == body / 16;
  }
}
