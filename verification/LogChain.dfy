/**
  The hash-chained log: what a logger writes for a buffer (server/enclave/silo_cc/silo_log_buffer.cpp,
  create_json_log and write) and what recovery accepts (server/enclave/silo_r/silor_log_archive.cpp).

  SHA-256 (section 6.2 of FIPS 180-4) is a parameter, of which nothing is assumed.
 */
module LogChain {
  import opened Base

  type Hash = string

  datatype Rec = Rec(tid: nat, op: string, key: string, val: string)
  /** A record as it is stored, with prev_hash. */
  datatype Linked = Linked(rec: Rec, prev: Hash)
  /** One buffer: log_header and log_set. */
  datatype LogSet = LogSet(num: nat, prevEpoch: Hash, recs: seq<Linked>)

  /** calculate_hash and compute_hash_from_log_record; and the hash of a string. */
  datatype Hasher = Hasher(ofRec: Rec -> Hash, ofString: string -> Hash)

  function EpochOf(r: Rec): nat { r.tid / 0x1_0000_0000 }

  function Concat(h: Hasher, recs: seq<Rec>): string {
    if recs == [] then "" else Concat(h, recs[..|recs| - 1]) + h.ofRec(recs[|recs| - 1])
  }

  /** The hash that represents a whole set in the chain of sets. */
  function SetHash(h: Hasher, recs: seq<Rec>): Hash { h.ofString(Concat(h, recs)) }

  function Plain(recs: seq<Linked>): (r: seq<Rec>)
    ensures |r| == |recs|
    ensures forall i :: 0 <= i < |r| ==> r[i] == recs[i].rec
  {
    seq(|recs|, i requires 0 <= i < |recs| => recs[i].rec)
  }

  // ---------------------------------------------------------------- the circular chain inside a set

  /** Each record carries the hash of the one before it, the first that of the last. */
  function Circle(h: Hasher, recs: seq<Rec>): (c: seq<Linked>)
    ensures |c| == |recs|
    ensures forall i {:trigger c[i]} :: 0 <= i < |c| ==>
          c[i] == Linked(recs[i], h.ofRec(recs[if i == 0 then |recs| - 1 else i - 1]))
  {
    seq(|recs|, i requires 0 <= i < |recs| => Linked(recs[i], h.ofRec(recs[if i == 0 then |recs| - 1 else i - 1])))
  }

  /** One more record: it points to the one before, and the first now points to it. */
  lemma CircleGrows(h: Hasher, recs: seq<Rec>, i: nat)
    requires i < |recs|
    ensures Circle(h, recs[..i + 1])
            == (Circle(h, recs[..i]) + [Linked(recs[i], if i == 0 then "" else h.ofRec(recs[i - 1]))])
               [0 := Linked(recs[0], h.ofRec(recs[i]))]
    ensures Concat(h, recs[..i + 1]) == Concat(h, recs[..i]) + h.ofRec(recs[i])
    ensures var c := Circle(h, recs[..i]); if i == 0 then c == []
          else c != [] && c[|c| - 1].rec == recs[i - 1] && c[0].rec == recs[0]
  {
    assert recs[..i + 1][..i] == recs[..i];
  }

  /** create_json_log. */
  method CreateJsonLog(h: Hasher, logSet: seq<Rec>, prevEpoch: Hash) returns (log: LogSet, epochHash: Hash)
    requires logSet != []
    ensures log == LogSet(|logSet|, prevEpoch, Circle(h, logSet)) && epochHash == SetHash(h, logSet)
  {
    hide Concat, Circle;
    var accumulated, json: seq<Linked> := "", [];
    assert logSet[..0] == [];
    ConcatNone(h);
    for i := 0 to |logSet|
      invariant accumulated == Concat(h, logSet[..i])
      invariant json == Circle(h, logSet[..i])
    {
      CircleGrows(h, logSet, i);
      var current := h.ofRec(logSet[i]);
      accumulated := accumulated + current;
      var prev := if json == [] then "" else h.ofRec(json[|json| - 1].rec);
      json := json + [Linked(logSet[i], prev)];
      json := json[0 := json[0].(prev := current)];
    }
    assert logSet[..|logSet|] == logSet;
    log := LogSet(|logSet|, prevEpoch, json);
    epochHash := h.ofString(accumulated);
  }

  lemma ConcatNone(h: Hasher)
    ensures Concat(h, []) == "" && Circle(h, []) == []
  {
  }

  /** prev_hash of record `i` is the hash of the record before it, for the first one that of the last. */
  predicate Points(h: Hasher, recs: seq<Linked>, i: nat)
    requires i < |recs|
  {
    recs[i].prev == h.ofRec(recs[if i == 0 then |recs| - 1 else i - 1].rec)
  }

  predicate Circular(h: Hasher, recs: seq<Linked>) {
    forall i {:trigger Points(h, recs, i)} :: 0 <= i < |recs| ==> Points(h, recs, i)
  }

  lemma {:induction false} CircularIsCircle(h: Hasher, recs: seq<Linked>)
    ensures Circular(h, recs) <==> recs == Circle(h, Plain(recs))
  {
    var c := Circle(h, Plain(recs));
    forall i | 0 <= i < |recs| ensures c[i] == recs[i] <==> Points(h, recs, i) {
    }
    if Circular(h, recs) {
      forall i | 0 <= i < |recs| ensures recs[i] == c[i] {
        assert Points(h, recs, i);
      }
    }
  }

  /** verify_log_level_integrity. */
  method VerifyLogLevel(h: Hasher, log: LogSet) returns (ok: bool)
    requires log.recs != []
    ensures ok <==> Circular(h, log.recs)
  {
    var recs := log.recs;
    if |recs| == 1 {
      assert Points(h, recs, 0) <==> recs[0].prev == h.ofRec(recs[0].rec);
      return recs[0].prev == h.ofRec(recs[0].rec);
    }
    var prev := h.ofRec(recs[|recs| - 1].rec);
    for i := 0 to |recs|
      invariant prev == h.ofRec(recs[if i == 0 then |recs| - 1 else i - 1].rec)
      invariant forall j {:trigger Points(h, recs, j)} :: 0 <= j < i ==> Points(h, recs, j)
    {
      assert Points(h, recs, i) <==> recs[i].prev == prev;
      if recs[i].prev != prev {
        return false;
      }
      prev := h.ofRec(recs[i].rec);
    }
    return true;
  }

  // ---------------------------------------------------------------- the chain across sets

  /** The sets a logger writes for the buffers `groups`, starting from hash `p`. */
  function Written(h: Hasher, groups: seq<seq<Rec>>, p: Hash): (sets: seq<LogSet>)
    ensures |sets| == |groups|
    ensures forall i {:trigger sets[i]} :: 0 <= i < |sets| ==> Plain(sets[i].recs) == groups[i]
  {
    if groups == [] then []
    else [LogSet(|groups[0]|, p, Circle(h, groups[0]))] + Written(h, groups[1..], SetHash(h, groups[0]))
  }

  /** prev_epoch_hash_ afterwards: what write_tail_log_hash stores last. */
  function Tail(h: Hasher, groups: seq<seq<Rec>>, p: Hash): Hash {
    if groups == [] then p else Tail(h, groups[1..], SetHash(h, groups[0]))
  }

  function Groups(sets: seq<LogSet>): (g: seq<seq<Rec>>)
    ensures |g| == |sets|
    ensures forall i :: 0 <= i < |g| ==> g[i] == Plain(sets[i].recs)
  {
    seq(|sets|, i requires 0 <= i < |sets| => Plain(sets[i].recs))
  }

  /** The epoch-level and log-level checks on one set after another: the hash they end with, if all pass. */
  function Check(h: Hasher, sets: seq<LogSet>, p: Hash): Option<Hash> {
    if sets == [] then Some(p)
    else if sets[0].prevEpoch != p || !Circular(h, sets[0].recs) then None
    else Check(h, sets[1..], SetHash(h, Plain(sets[0].recs)))
  }

  /** Equal but for log_record_num, which is stored and never checked. */
  predicate Alike(a: seq<LogSet>, b: seq<LogSet>) {
    |a| == |b| && forall i :: 0 <= i < |a| ==> a[i].prevEpoch == b[i].prevEpoch && a[i].recs == b[i].recs
  }

  lemma AlikeCons(a: seq<LogSet>, b: seq<LogSet>)
    requires a != [] && b != []
    ensures Alike(a, b) <==> a[0].prevEpoch == b[0].prevEpoch && a[0].recs == b[0].recs && Alike(a[1..], b[1..])
  {
    assert forall i :: 0 < i < |a| ==> a[i] == a[1..][i - 1];
    assert forall i :: 0 < i < |b| ==> b[i] == b[1..][i - 1];
  }

  lemma WrittenCons(h: Hasher, sets: seq<LogSet>, p: Hash)
    requires sets != []
    ensures var w, recs := Written(h, Groups(sets), p), Plain(sets[0].recs);
            && w[0] == LogSet(|recs|, p, Circle(h, recs))
            && w[1..] == Written(h, Groups(sets[1..]), SetHash(h, recs))
            && Tail(h, Groups(sets), p) == Tail(h, Groups(sets[1..]), SetHash(h, recs))
  {
    assert Groups(sets)[1..] == Groups(sets[1..]);
  }

  /**
    The verifier accepts exactly what a writer produces: a sequence of sets passes from hash `p` if and
    only if it is the writer's output for the records it contains, and then it ends with the writer's
    tail hash.
   */
  lemma {:induction false} AcceptsExactlyWritten(h: Hasher, sets: seq<LogSet>, p: Hash)
    ensures Check(h, sets, p).Some? <==> Alike(sets, Written(h, Groups(sets), p))
    ensures Check(h, sets, p).Some? ==> Check(h, sets, p).value == Tail(h, Groups(sets), p)
  {
    if sets != [] {
      var recs := Plain(sets[0].recs);
      AcceptsExactlyWritten(h, sets[1..], SetHash(h, recs));
      WrittenCons(h, sets, p);
      AlikeCons(sets, Written(h, Groups(sets), p));
      CircularIsCircle(h, sets[0].recs);
      hide Written, Tail, Groups, Circle, Circular, Alike, SetHash;
    }
  }

  // ---------------------------------------------------------------- framing

  type Byte = b: nat | b < 256

  function Pow256(n: nat): (p: nat)
    ensures p >= 1
  {
    if n == 0 then 1 else 256 * Pow256(n - 1)
  }

  /** `size_t` as eight little-endian bytes. */
  function LittleEndian(n: nat, k: nat): (s: seq<Byte>)
    ensures |s| == k
  {
    if k == 0 then [] else [n % 256] + LittleEndian(n / 256, k - 1)
  }

  function FromLittleEndian(s: seq<Byte>): nat {
    if s == [] then 0 else s[0] + 256 * FromLittleEndian(s[1..])
  }

  lemma {:induction false} SizeRoundTrip(n: nat, k: nat)
    requires n < Pow256(k)
    ensures FromLittleEndian(LittleEndian(n, k)) == n
  {
    if k > 0 {
      SizeRoundTrip(n / 256, k - 1);
      assert LittleEndian(n, k)[1..] == LittleEndian(n / 256, k - 1);
    }
  }

  /** JSON dump and parse, of which only the round trip matters. */
  datatype Codec = Codec(dump: LogSet -> seq<Byte>, parse: seq<Byte> -> LogSet)

  ghost predicate CodecOk(c: Codec) {
    forall x {:trigger c.dump(x)} :: c.parse(c.dump(x)) == x && c.dump(x) != [] && |c.dump(x)| < Pow256(8)
  }

  /** LogBuffer::write appends the size and the JSON text. */
  function FileOf(c: Codec, sets: seq<LogSet>): seq<Byte> {
    if sets == [] then []
    else LittleEndian(|c.dump(sets[0])|, 8) + c.dump(sets[0]) + FileOf(c, sets[1..])
  }

  /** fetch_next_log_record and deserialize_log_set until the end of the file or an empty record. */
  method ReadAll(c: Codec, file: seq<Byte>, ghost sets: seq<LogSet>) returns (read: seq<LogSet>)
    requires CodecOk(c) && file == FileOf(c, sets)
    ensures read == sets
  {
    var offset := 0;
    read := [];
    while offset < |file|
      invariant offset <= |file| && |read| <= |sets| && read == sets[..|read|]
      invariant file[offset..] == FileOf(c, sets[|read|..])
      decreases |file| - offset
    {
      ghost var rest := sets[|read|..];
      Frame(c, rest);
      var size := file[offset..][..8];
      var length := FromLittleEndian(size);
      offset := offset + 8;
      assert file[offset - 8..][8..] == file[offset..];
      var text := file[offset..][..length];
      offset := offset + length;
      assert file[offset - length..][length..] == file[offset..];
      if text == [] { break; }
      read := read + [c.parse(text)];
      assert sets[|read|..] == rest[1..];
    }
    FileEnds(c, sets[|read|..]);
  }

  lemma FileEnds(c: Codec, sets: seq<LogSet>)
    requires FileOf(c, sets) == []
    ensures sets == []
  {
  }

  lemma {:induction false} Frame(c: Codec, sets: seq<LogSet>)
    requires CodecOk(c) && sets != []
    ensures var f, text := FileOf(c, sets), c.dump(sets[0]);
            && |f| >= 8 + |text| && FromLittleEndian(f[..8]) == |text| && text != []
            && f[8..][..|text|] == text && f[8..][|text|..] == FileOf(c, sets[1..]) && c.parse(text) == sets[0]
  {
    var f, text, size := FileOf(c, sets), c.dump(sets[0]), LittleEndian(|c.dump(sets[0])|, 8);
    SizeRoundTrip(|text|, 8);
    assert f == size + (text + FileOf(c, sets[1..]));
    assert f[..8] == size && f[8..] == text + FileOf(c, sets[1..]);
  }
}
