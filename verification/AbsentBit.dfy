/**
  The absent bit of the words a write phase stores (server/enclave/silo_cc/silo_transaction.cpp,
  writePhase): the loop of the source, whose flag leaks from one entry to the next, against the flag set
  per entry that `Silo.StepInstall` uses.
 */
module AbsentBit {
  import opened Silo

  /** The flag each entry should store: set for a DELETE, clear otherwise. */
  function PerEntry(ops: seq<Op>): (bits: seq<bool>)
    ensures |bits| == |ops|
  {
    seq(|ops|, i requires 0 <= i < |ops| => ops[i].Delete?)
  }

  /** The flag the loop leaves behind after the first `n` entries; `leak` is the flag of the chosen commit word. */
  function Flag(ops: seq<Op>, n: nat, leak: bool): bool
    requires n <= |ops|
  {
    if n == 0 then leak
    else match ops[n - 1]
         case Write => Flag(ops, n - 1, leak)
         case Insert => false
         case Delete => true
  }

  /** The loop: a WRITE stores the word as it is, INSERT and DELETE change its flag first. */
  method StoredBits(ops: seq<Op>, leak: bool) returns (bits: seq<bool>)
    ensures |bits| == |ops| && forall i :: 0 <= i < |ops| ==> bits[i] == Flag(ops, i + 1, leak)
  {
    var absent := leak;
    bits := [];
    for i := 0 to |ops|
      invariant |bits| == i && absent == Flag(ops, i, leak)
      invariant forall j :: 0 <= j < i ==> bits[j] == Flag(ops, j + 1, leak)
    {
      match ops[i] {
        case Write =>
        case Insert => absent := false;
        case Delete => absent := true;
      }
      bits := bits + [absent];
    }
  }

  /** Entry `d` is a DELETE with nothing but WRITEs between it and entry `n`. */
  predicate DeletedAt(ops: seq<Op>, d: nat, n: nat)
    requires d < n <= |ops|
  {
    ops[d].Delete? && forall j :: d < j < n ==> ops[j].Write?
  }

  /** Entry `i` is a WRITE after a DELETE with no INSERT in between, or after nothing but WRITEs with a leaked flag. */
  predicate WriteUnderFlag(ops: seq<Op>, leak: bool, i: nat)
    requires i < |ops|
  {
    ops[i].Write? && ((leak && forall j :: 0 <= j < i ==>
        ops[j].Write?) || exists d :: 0 <= d < i && DeletedAt(ops, d, i))
  }

  lemma {:induction false} FlagIs(ops: seq<Op>, n: nat, leak: bool)
    requires n <= |ops|
    ensures Flag(ops, n, leak) <==>
            (leak && forall j :: 0 <= j < n ==> ops[j].Write?) || exists d :: 0 <= d < n && DeletedAt(ops, d, n)
  {
    if n > 0 {
      FlagIs(ops, n - 1, leak);
      if ops[n - 1].Delete? {
        assert DeletedAt(ops, n - 1, n);
      } else if ops[n - 1].Write? {
        assert (forall j :: 0 <= j < n ==> ops[j].Write?) <==> (forall j :: 0 <= j < n - 1 ==> ops[j].Write?);
        var m := n - 1;
        if d :| 0 <= d < m && DeletedAt(ops, d, m) {
          assert DeletedAt(ops, d, n);
        }
        if d :| 0 <= d < n && DeletedAt(ops, d, n) {
          assert DeletedAt(ops, d, m);
        }
      }
    }
  }

  /** The loop stores the right flags exactly when no WRITE comes while the flag is set. */
  lemma LoopIsRight(ops: seq<Op>, leak: bool)
    ensures (forall i :: 0 <= i < |ops| ==> Flag(ops, i + 1, leak) == PerEntry(ops)[i])
            <==> forall i :: 0 <= i < |ops| ==> !WriteUnderFlag(ops, leak, i)
  {
    forall i | 0 <= i < |ops| ensures Flag(ops, i + 1, leak) == PerEntry(ops)[i] <==> !WriteUnderFlag(ops, leak, i) {
      FlagIs(ops, i, leak);
    }
  }

  /** A transaction that deletes one record and then writes another makes the second one absent too. */
  lemma DeleteThenWrite()
    ensures Flag([Delete, Write], 2, false) && !PerEntry([Delete, Write])[1]
  {
  }
}
