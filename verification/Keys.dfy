/**
  Masstree keys: a byte string cut into 8-byte slices, the last one zero-padded
  (server/enclave/masstree/include/masstree_key.h).
 */
module Keys {
  const SLICE_LIMIT: nat := 0x1_0000_0000_0000_0000

  type Slice = s: nat | s < SLICE_LIMIT
  type Byte = b: nat | b < 256

  /** `slices` and lastSliceSize; the cursor is modelled by dropping the slices before it. */
  datatype Key = Key(slices: seq<Slice>, last: nat)

  predicate KeyOk(k: Key) { |k.slices| >= 1 && 1 <= k.last <= 8 }

  /** A key from its cursor on. */
  type Rest = k: Key | KeyOk(k) witness Key([0], 1)

  predicate HasNext(k: Rest) { |k.slices| >= 2 }

  /** The key after the cursor moves one slice on. */
  function Next(k: Rest): Rest
    requires HasNext(k)
  {
    Key(k.slices[1..], k.last)
  }

  function RemainLength(k: Rest): nat { (|k.slices| - 1) * 8 + k.last }

  /** BigSuffix::isSame: equal lengths, then slice by slice. */
  predicate IsSame(suffix: Rest, k: Rest) {
    RemainLength(suffix) == RemainLength(k)
    && forall i :: 0 <= i < |suffix.slices| && i < |k.slices| ==> suffix.slices[i] == k.slices[i]
  }

  /** Equal byte lengths leave no room for different slice counts, so the loop of isSame stays in bounds. */
  lemma IsSameIsEqual(suffix: Rest, k: Rest)
    ensures IsSame(suffix, k) <==> suffix == k
    ensures RemainLength(suffix) == RemainLength(k) ==> |suffix.slices| == |k.slices| && suffix.last == k.last
  {
  }

  // ---------------------------------------------------------------- bytes and slices

  function Pow256(n: nat): (p: nat)
    ensures p >= 1
  {
    if n == 0 then 1 else 256 * Pow256(n - 1)
  }

  /** The bytes read as a big-endian number. */
  function BigEndian(s: seq<Byte>): (v: nat)
    ensures v < Pow256(|s|)
  {
    if s == [] then 0 else BigEndian(s[..|s| - 1]) * 256 + s[|s| - 1]
  }

  /** One slice: up to eight bytes, shifted left to fill the word. */
  function SliceOf(s: seq<Byte>): nat
    requires |s| <= 8
  {
    BigEndian(s) * Pow256(8 - |s|)
  }

  lemma SliceFits(s: seq<Byte>)
    requires |s| <= 8
    ensures SliceOf(s) < SLICE_LIMIT
  {
    PowSplit(|s|, 8 - |s|);
    PowEight();
    MulLess(BigEndian(s), Pow256(|s|), Pow256(8 - |s|));
  }

  lemma MulLess(a: nat, b: nat, c: nat)
    requires a < b && c >= 1
    ensures a * c < b * c
  {
  }

  lemma {:induction false} PowSplit(a: nat, b: nat)
    ensures Pow256(a) * Pow256(b) == Pow256(a + b)
  {
    if a > 0 {
      PowSplit(a - 1, b);
      assert 256 * Pow256(a - 1) * Pow256(b) == 256 * (Pow256(a - 1) * Pow256(b));
    }
  }

  lemma PowEight()
    ensures Pow256(8) == SLICE_LIMIT
  {
    assert Pow256(4) == 0x1_0000_0000;
    PowSplit(4, 4);
  }

  /** string_to_uint64t as a function. */
  function ToKey(s: seq<Byte>): Rest
    requires s != []
  {
    SliceFits(if |s| <= 8 then s else s[..8]);
    if |s| <= 8 then Key([SliceOf(s)], |s|)
    else
      var rest := ToKey(s[8..]);
      Key([SliceOf(s[..8])] + rest.slices, rest.last)
  }

  /** Byte `i` of a slice, from the left: `(slice >> ((7 - i) * 8)) & 0xFF`. */
  function ByteAt(slice: nat, i: nat): Byte
    requires i < 8
  {
    (slice / Pow256(7 - i)) % 256
  }

  function Bytes(slice: nat, n: nat): (s: seq<Byte>)
    requires n <= 8
    ensures |s| == n
  {
    seq(n, i requires 0 <= i < n => ByteAt(slice, i))
  }

  /** uint64t_to_string. */
  function ToBytes(k: Rest): seq<Byte>
    decreases |k.slices|
  {
    if |k.slices| == 1 then Bytes(k.slices[0], k.last)
    else Bytes(k.slices[0], 8) + ToBytes(Next(k))
  }

  lemma {:induction false} BigEndianAt(s: seq<Byte>, i: nat)
    requires i < |s|
    ensures (BigEndian(s) / Pow256(|s| - 1 - i)) % 256 == s[i]
  {
    var n := |s|;
    var front, last := s[..n - 1], s[n - 1];
    if i < n - 1 {
      BigEndianAt(front, i);
      var p := Pow256(n - 2 - i);
      assert Pow256(n - 1 - i) == 256 * p;
      DivDown(BigEndian(front), last, p);
      hide *;
    } else {
      LowByte(BigEndian(front), last);
    }
  }

  lemma LowByte(hi: nat, low: Byte)
    ensures ((hi * 256 + low) / 1) % 256 == low
  {
  }

  /** Dropping the low byte first does not change the higher ones. */
  lemma DivDown(hi: nat, low: Byte, p: nat)
    requires p >= 1
    ensures (hi * 256 + low) / (256 * p) == hi / p
  {
    var q, r := hi / p, hi % p;
    assert hi == q * p + r;
    var a := hi * 256 + low;
    assert a == q * (256 * p) + (r * 256 + low) by {
      assert q * p * 256 == q * (256 * p);
    }
    assert r * 256 + low < 256 * p;
    QuotientIs(a, 256 * p, q, r * 256 + low);
  }

  lemma QuotientIs(a: nat, d: nat, q: nat, r: nat)
    requires d >= 1 && r < d && a == q * d + r
    ensures a / d == q && a % d == r
  {
    var q', r' := a / d, a % d;
    assert a == q' * d + r';
    if q' < q {
      MulGap(q', q, d);
    } else if q < q' {
      MulGap(q, q', d);
    }
  }

  lemma MulGap(a: nat, b: nat, d: nat)
    requires a < b
    ensures a * d + d <= b * d
  {
    var e: nat := b - a - 1;
    MulAdds(a, 1 + e, d);
    MulAdds(1, e, d);
  }

  lemma MulAdds(a: nat, b: nat, d: nat)
    ensures (a + b) * d == a * d + b * d && b * d >= 0
  {
  }

  /** The bytes of a slice are the bytes it was made of. */
  lemma SliceBytes(s: seq<Byte>)
    requires 1 <= |s| <= 8
    ensures Bytes(SliceOf(s), |s|) == s
  {
    var n := |s|;
    forall i | 0 <= i < n ensures ByteAt(SliceOf(s), i) == s[i] {
      var pad := Pow256(8 - n);
      PowSplit(8 - n, n - 1 - i);
      DivCancel(BigEndian(s), pad, Pow256(n - 1 - i));
      BigEndianAt(s, i);
    }
  }

  lemma DivCancel(a: nat, c: nat, p: nat)
    requires c >= 1 && p >= 1
    ensures (a * c) / (c * p) == a / p
  {
    var q, r := a / p, a % p;
    assert a == q * p + r;
    assert a * c == q * (c * p) + r * c by {
      assert (q * p) * c == q * (c * p);
    }
    MulLess(r, p, c);
    QuotientIs(a * c, c * p, q, r * c);
  }

  /** Slicing and then unslicing any non-empty string is the identity. */
  lemma {:induction false} RoundTrip(s: seq<Byte>)
    requires s != []
    ensures ToBytes(ToKey(s)) == s
    ensures RemainLength(ToKey(s)) == |s|
  {
    if |s| <= 8 {
      SliceBytes(s);
    } else {
      SliceBytes(s[..8]);
      RoundTrip(s[8..]);
      assert Next(ToKey(s)) == ToKey(s[8..]);
      assert s == s[..8] + s[8..];
    }
  }

  /** Different strings are different keys. */
  lemma ToKeyInjective(s: seq<Byte>, t: seq<Byte>)
    requires s != [] && t != [] && ToKey(s) == ToKey(t)
    ensures s == t
  {
    RoundTrip(s);
    RoundTrip(t);
  }

  /** What the outer loop has done when it reaches `index`. */
  ghost predicate Cut(key: seq<Byte>, index: nat, slices: seq<Slice>, last: nat)
    requires index <= |key|
  {
    if key == [] then slices == [] && last == 0
    else if index == |key| then Key(slices, last) == ToKey(key)
    else ToKey(key) == Key(slices + ToKey(key[index..]).slices, ToKey(key[index..]).last)
  }

  /** One more slice: all of what is left, or its first eight bytes. */
  lemma CutMore(key: seq<Byte>, index: nat, slices: seq<Slice>, last: nat, i: nat)
    requires index < |key| && Cut(key, index, slices, last)
    requires i == if |key| - index < 8 then |key| - index else 8
    ensures SliceOf(key[index..index + i]) < SLICE_LIMIT
    ensures Cut(key, index + i, slices + [SliceOf(key[index..index + i])], i)
  {
    var tail, now := key[index..], key[index..index + i];
    SliceFits(now);
    assert now == tail[..i];
    if index + i < |key| {
      assert tail[8..] == key[index + i..];
      assert slices + ToKey(tail).slices == slices + [SliceOf(now)] + ToKey(tail[8..]).slices;
    } else {
      assert now == tail;
    }
  }

  lemma CutEnds(key: seq<Byte>)
    ensures Cut(key, 0, [], 0)
    ensures forall slices, last :: Cut(key, |key|, slices, last) ==>
              if key == [] then slices == [] && last == 0 else Key(slices, last) == ToKey(key)
  {
    assert key[0..] == key;
  }

  lemma ShiftIn(key: seq<Byte>, a: nat, b: nat)
    requires a <= b < |key|
    ensures BigEndian(key[a..b + 1]) == BigEndian(key[a..b]) * 256 + key[b]
  {
    assert key[a..b + 1][..b - a] == key[a..b];
  }

  /** string_to_uint64t. */
  method StringToSlices(key: seq<Byte>) returns (slices: seq<Slice>, last: nat)
    ensures key == [] ==> slices == [] && last == 0
    ensures key != [] ==> Key(slices, last) == ToKey(key)
  {
    hide Cut, ToKey, BigEndian, Pow256;
    slices, last := [], 0;
    var index := 0;
    CutEnds(key);
    while index < |key|
      invariant index <= |key| && Cut(key, index, slices, last)
    {
      ghost var start := index;
      var slice, i := 0, 0;
      assert key[start..start] == [];
      EmptyIsZero();
      while i < 8 && index < |key|
        invariant start <= index <= |key| && i == index - start <= 8
        invariant slice == BigEndian(key[start..index])
      {
        ShiftIn(key, start, index);
        slice := slice * 256 + key[index];
        i, index := i + 1, index + 1;
      }
      slice := slice * Pow256(8 - i);
      CutMore(key, start, slices, last, i);
      slices, last := slices + [slice], i;
    }
  }

  lemma EmptyIsZero()
    ensures BigEndian([]) == 0
  {
  }
}
