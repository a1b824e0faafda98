/**
  The order on keys (server/enclave/masstree/include/masstree_key.h, operator<) against the byte order
  of the strings they stand for.
 */
module KeyOrder {
  import opened Keys

  // ---------------------------------------------------------------- byte order

  /** `s` and `t` agree below `i`, where `s` ends or has the smaller byte. */
  predicate FirstDiff(s: seq<Byte>, t: seq<Byte>, i: nat) {
    i <= |s| && i < |t| && (forall k :: 0 <= k < i ==> s[k] == t[k]) && (i < |s| ==> s[i] < t[i])
  }

  /** The order of std::string. */
  ghost predicate Lex(s: seq<Byte>, t: seq<Byte>) { exists i: nat :: FirstDiff(s, t, i) }

  lemma LexAsym(s: seq<Byte>, t: seq<Byte>)
    requires Lex(s, t)
    ensures !Lex(t, s)
  {
    var i: nat :| FirstDiff(s, t, i);
    forall j: nat ensures !FirstDiff(t, s, j) {
    }
  }

  // ---------------------------------------------------------------- slices compare like their bytes

  /** Equal lengths: the big-endian numbers are ordered as the first differing byte is. */
  lemma {:induction false} BigEndianOrder(x: seq<Byte>, y: seq<Byte>) returns (i: nat)
    requires |x| == |y|
    ensures BigEndian(x) == BigEndian(y) <==> x == y
    ensures BigEndian(x) < BigEndian(y) ==> i < |x| && FirstDiff(x, y, i)
    ensures BigEndian(x) > BigEndian(y) ==> i < |x| && FirstDiff(y, x, i)
  {
    if x == [] {
      i := 0;
    } else {
      var n := |x| - 1;
      i := BigEndianOrder(x[..n], y[..n]);
      if BigEndian(x[..n]) == BigEndian(y[..n]) {
        i := n;
        assert x == x[..n] + [x[n]] && y == y[..n] + [y[n]];
      }
    }
  }

  function Zeros(k: nat): (s: seq<Byte>)
    ensures |s| == k
  {
    seq(k, _ => 0)
  }

  lemma {:induction false} Padding(x: seq<Byte>, k: nat)
    ensures BigEndian(x + Zeros(k)) == BigEndian(x) * Pow256(k)
  {
    if k == 0 {
      assert x + Zeros(0) == x;
    } else {
      Padding(x, k - 1);
      var longer := x + Zeros(k);
      assert longer[..|longer| - 1] == x + Zeros(k - 1);
      assert BigEndian(longer) == BigEndian(x) * Pow256(k - 1) * 256;
      Regroup(BigEndian(x), Pow256(k - 1));
    }
  }

  lemma Regroup(a: nat, p: nat)
    ensures a * p * 256 == a * (256 * p)
  {
  }

  /** The first byte in which two slices differ, seen from the unpadded bytes. */
  lemma SliceDiff(x: seq<Byte>, y: seq<Byte>) returns (i: nat)
    requires |x| <= 8 && |y| <= 8
    ensures SliceOf(x) < SliceOf(y) ==> FirstDiff(x, y, i)
    ensures SliceOf(x) > SliceOf(y) ==> FirstDiff(y, x, i)
  {
    var px, py := x + Zeros(8 - |x|), y + Zeros(8 - |y|);
    Padding(x, 8 - |x|);
    Padding(y, 8 - |y|);
    i := BigEndianOrder(px, py);
    if SliceOf(x) < SliceOf(y) {
      i := Unpad(x, y, i);
    } else if SliceOf(x) > SliceOf(y) {
      i := Unpad(y, x, i);
    }
  }

  lemma Unpad(x: seq<Byte>, y: seq<Byte>, i: nat) returns (j: nat)
    requires |x| <= 8 && |y| <= 8 && i < 8
    requires FirstDiff(x + Zeros(8 - |x|), y + Zeros(8 - |y|), i)
    ensures FirstDiff(x, y, j)
  {
    var px, py := x + Zeros(8 - |x|), y + Zeros(8 - |y|);
    j := if i < |x| then i else |x|;
    assert i < |y|;
    assert forall k :: 0 <= k < j ==> px[k] == x[k] && py[k] == y[k];
  }

  lemma SliceLess(x: seq<Byte>, y: seq<Byte>)
    requires |x| <= 8 && |y| <= 8 && FirstDiff(x, y, 0) && x != []
    ensures SliceOf(x) < SliceOf(y)
  {
    LexAsym(x, y);
    var j := SliceDiff(x, y);
    if SliceOf(x) == SliceOf(y) {
      if |x| <= |y| { SliceSame(x, y); } else { SliceSame(y, x); }
    }
  }

  lemma PadPrefix(x: seq<Byte>, y: seq<Byte>)
    requires |x| <= |y| <= 8 && x + Zeros(8 - |x|) == y + Zeros(8 - |y|)
    ensures y[..|x|] == x
  {
    var px, py := x + Zeros(8 - |x|), y + Zeros(8 - |y|);
    assert px[..|x|] == x && py[..|x|] == y[..|x|];
  }

  /** Equal slices: the shorter string is a prefix of the longer. */
  lemma SliceSame(x: seq<Byte>, y: seq<Byte>)
    requires |x| <= |y| <= 8 && SliceOf(x) == SliceOf(y)
    ensures y[..|x|] == x
  {
    Padding(x, 8 - |x|);
    Padding(y, 8 - |y|);
    var _ := BigEndianOrder(x + Zeros(8 - |x|), y + Zeros(8 - |y|));
    hide BigEndian, Pow256;
    PadPrefix(x, y);
  }

  // ---------------------------------------------------------------- operator<

  /** First differing slice, then the sizes of the last slices, then the number of slices. */
  predicate LessFrom(a: seq<Slice>, la: nat, b: seq<Slice>, lb: nat) {
    if a != [] && b != [] then
      if a[0] != b[0] then a[0] < b[0] else LessFrom(a[1..], la, b[1..], lb)
    else if la != lb then la < lb
    else |a| < |b|
  }

  predicate Less(a: Rest, b: Rest) { LessFrom(a.slices, a.last, b.slices, b.last) }

  /** The loop of operator<. */
  method OperatorLess(a: Rest, b: Rest) returns (less: bool)
    ensures less == Less(a, b)
  {
    var minSize := if |a.slices| < |b.slices| then |a.slices| else |b.slices|;
    var i := 0;
    while i < minSize
      invariant i <= minSize
      invariant Less(a, b) == LessFrom(a.slices[i..], a.last, b.slices[i..], b.last)
    {
      if a.slices[i] != b.slices[i] {
        return a.slices[i] < b.slices[i];
      }
      assert a.slices[i..][1..] == a.slices[i + 1..] && b.slices[i..][1..] == b.slices[i + 1..];
      i := i + 1;
    }
    if a.last != b.last {
      return a.last < b.last;
    }
    return |a.slices| < |b.slices|;
  }

  /** `a` ends where `b` goes on, yet its last slice counts as the larger. */
  predicate Misplaced(a: Rest, b: Rest) { a.slices < b.slices && a.last > b.last }

  /** One of the strings fits in one slice. */
  lemma ShortOrder(s: seq<Byte>, t: seq<Byte>)
    requires s != [] && t != [] && (|s| <= 8 || |t| <= 8)
    requires ToKey(s).slices[0] == ToKey(t).slices[0]
    ensures Lex(s, t) <==> |s| < |t|
  {
    var x, y := if |s| <= 8 then s else s[..8], if |t| <= 8 then t else t[..8];
    if |s| < |t| {
      SliceSame(x, y);
      assert FirstDiff(s, t, |s|);
    } else if |s| == |t| {
      SliceSame(x, y);
      assert s == t;
    } else {
      SliceSame(y, x);
      assert FirstDiff(t, s, |t|);
      LexAsym(t, s);
    }
  }

  lemma FirstSlice(s: seq<Byte>, t: seq<Byte>)
    requires s != [] && t != [] && ToKey(s).slices[0] < ToKey(t).slices[0]
    ensures Lex(s, t) && !Lex(t, s)
  {
    var x, y := if |s| <= 8 then s else s[..8], if |t| <= 8 then t else t[..8];
    var i := SliceDiff(x, y);
    assert FirstDiff(s, t, i);
    LexAsym(s, t);
  }

  lemma LexTail(s: seq<Byte>, t: seq<Byte>)
    requires |s| > 8 && |t| > 8 && s[..8] == t[..8]
    ensures Lex(s, t) <==> Lex(s[8..], t[8..])
  {
    assert forall k :: 0 <= k < 8 ==> s[k] == s[..8][k] && t[k] == t[..8][k];
    if Lex(s, t) {
      var i: nat :| FirstDiff(s, t, i);
      assert FirstDiff(s[8..], t[8..], i - 8);
    }
    if Lex(s[8..], t[8..]) {
      var j: nat :| FirstDiff(s[8..], t[8..], j);
      assert forall k :: 8 <= k < j + 8 ==> s[k] == s[8..][k - 8] && t[k] == t[8..][k - 8];
      assert FirstDiff(s, t, j + 8);
    }
  }

  lemma KeyShape(s: seq<Byte>)
    requires s != []
    ensures |ToKey(s).slices| == 1 <==> |s| <= 8
    ensures |s| <= 8 ==> ToKey(s).last == |s|
  {
  }

  /** operator< when one of the keys has a single slice. */
  lemma ShortLess(a: Rest, b: Rest)
    requires (|a.slices| == 1 || |b.slices| == 1) && a.slices[0] == b.slices[0]
    ensures Less(a, b) == (a.last < b.last || (a.last == b.last && |a.slices| < |b.slices|))
    ensures a.slices < b.slices <==> |a.slices| == 1 < |b.slices|
    ensures b.slices < a.slices <==> |b.slices| == 1 < |a.slices|
  {
    assert LessFrom(a.slices, a.last, b.slices, b.last) == LessFrom(a.slices[1..], a.last, b.slices[1..], b.last);
  }

  /**
    Keys compare like their strings exactly when neither slice vector is a strict prefix of the other
    with the larger last slice.
   */
  lemma {:induction false} OrderIsByteOrder(s: seq<Byte>, t: seq<Byte>)
    requires s != [] && t != []
    ensures (Less(ToKey(s), ToKey(t)) <==> Lex(s, t)) <==>
          !Misplaced(ToKey(s), ToKey(t)) && !Misplaced(ToKey(t), ToKey(s))
    decreases |s|
  {
    var a, b := ToKey(s), ToKey(t);
    if a.slices[0] < b.slices[0] {
      FirstSlice(s, t);
    } else if a.slices[0] > b.slices[0] {
      FirstSlice(t, s);
    } else if |s| <= 8 || |t| <= 8 {
      ShortOrder(s, t);
      KeyShape(s);
      KeyShape(t);
      ShortLess(a, b);
    } else {
      SliceSame(s[..8], t[..8]);
      LexTail(s, t);
      OrderIsByteOrder(s[8..], t[8..]);
      var a', b' := ToKey(s[8..]), ToKey(t[8..]);
      assert a.slices == [a.slices[0]] + a'.slices && b.slices == [b.slices[0]] + b'.slices;
      PrefixShift(a.slices[0], a'.slices, b'.slices);
      PrefixShift(a.slices[0], b'.slices, a'.slices);
    }
  }

  lemma PrefixShift(x: Slice, a: seq<Slice>, b: seq<Slice>)
    ensures a < b <==> [x] + a < [x] + b
  {
    if [x] + a < [x] + b {
      assert forall i :: 0 <= i < |a| ==> a[i] == ([x] + a)[i + 1] && b[i] == ([x] + b)[i + 1];
    }
  }

  /** The order is not transitive: three keys in a circle. */
  lemma OrderIsCircular()
    ensures var x: seq<Byte> := [97, 97, 97, 97, 97, 97, 97, 97];
            var y, z := x + [99], x + [98, 98, 98, 98, 98, 98, 98, 98];
            Less(ToKey(y), ToKey(x)) && Less(ToKey(x), ToKey(z)) && Less(ToKey(z), ToKey(y))
  {
    var x: seq<Byte> := [97, 97, 97, 97, 97, 97, 97, 97];
    var b: seq<Byte> := [98, 98, 98, 98, 98, 98, 98, 98];
    var y, z := x + [99], x + b;
    assert y[..8] == x && y[8..] == [99] && z[..8] == x && z[8..] == b;
    assert ToKey(y).slices == [SliceOf(x), SliceOf([99])] && ToKey(z).slices == [SliceOf(x), SliceOf(b)];
    assert FirstDiff(b, [99], 0);
    SliceLess(b, [99]);
    assert ToKey(x).slices == [SliceOf(x)];
    assert ToKey(z).slices[1..] == [SliceOf(b)] && ToKey(y).slices[1..] == [SliceOf([99])];
  }
}
