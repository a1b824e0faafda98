/**
  The 64-bit TID word of a record (server/enclave/cassa_common/db_tid.h) and the
  choice of a commit TID (server/enclave/silo_cc/silo_transaction.cpp, writePhase).

  The word packs, from the low bit: lock, latest, absent, a 29-bit TID and a 32-bit epoch, and the
  source orders words by their packed value.  The protocol model works with stamps
  (epoch, TID); the lemmas here show that nothing is lost by that.
 */
module Tid {
  const TID_LIMIT: nat := 0x2000_0000
  const EPOCH_LIMIT: nat := 0x1_0000_0000

  /** The 29-bit TID field. */
  type TidField = t: nat | t < TID_LIMIT

  datatype Word = Word(lock: bool, latest: bool, absent: bool, tid: TidField, epoch: nat)

  /** A version stamp: what is left of a word when the three flags are dropped. */
  datatype Ver = Ver(epoch: nat, tid: TidField)

  const ZERO: Ver := Ver(0, 0)

  predicate Fits(w: Word) { w.epoch < EPOCH_LIMIT }

  function Bit(b: bool): nat { if b then 1 else 0 }

  /** The packed value `obj_`. */
  function Obj(w: Word): nat {
    w.epoch * 0x1_0000_0000 + w.tid * 8 + Bit(w.absent) * 4 + Bit(w.latest) * 2 + Bit(w.lock)
  }

  function FromObj(n: nat): Word {
    Word(n % 2 == 1, (n / 2) % 2 == 1, (n / 4) % 2 == 1, (n / 8) % TID_LIMIT, n / 0x1_0000_0000)
  }

  function Stamp(w: Word): Ver { Ver(w.epoch, w.tid) }

  /** Strict (epoch, TID) order. */
  predicate Below(a: Ver, b: Ver) {
    a.epoch < b.epoch || (a.epoch == b.epoch && a.tid < b.tid)
  }

  predicate AtMost(a: Ver, b: Ver) { a == b || Below(a, b) }

  function Later(a: Ver, b: Ver): Ver { if Below(a, b) then b else a }

  /** `std::max`: the first argument unless it is strictly smaller as a packed word. */
  function MaxWord(a: Word, b: Word): Word { if Obj(a) < Obj(b) then b else a }

  /** Packing loses nothing, and words compare by epoch, then TID, then flags. */
  lemma PackedOrder(a: Word, b: Word)
    requires Fits(a) && Fits(b)
    ensures Obj(a) < 0x1_0000_0000_0000_0000
    ensures FromObj(Obj(a)) == a
    ensures Obj(a) == Obj(b) <==> a == b
    ensures Below(Stamp(a), Stamp(b)) ==> Obj(a) < Obj(b)
    ensures Obj(a) < Obj(b) ==> AtMost(Stamp(a), Stamp(b))
  {
    Unpack(a);
    Unpack(b);
  }

  lemma Unpack(w: Word)
    requires Fits(w)
    ensures FromObj(Obj(w)) == w
  {
    var low := w.tid * 8 + Bit(w.absent) * 4 + Bit(w.latest) * 2 + Bit(w.lock);
    assert low < 0x1_0000_0000;
    assert Obj(w) / 2 == w.epoch * 0x8000_0000 + w.tid * 4 + Bit(w.absent) * 2 + Bit(w.latest);
    assert Obj(w) / 4 == w.epoch * 0x4000_0000 + w.tid * 2 + Bit(w.absent);
    assert Obj(w) / 8 == w.epoch * 0x2000_0000 + w.tid;
  }

  /** Taking the larger packed word takes the later stamp. */
  lemma MaxStamp(a: Word, b: Word)
    requires Fits(a) && Fits(b)
    ensures Stamp(MaxWord(a, b)) == Later(Stamp(a), Stamp(b))
  {
    PackedOrder(a, b);
    PackedOrder(b, a);
  }

  /** `TID++` on the 29-bit field: it wraps. */
  function BumpWord(w: Word): Word { w.(tid := (w.tid + 1) % TID_LIMIT) }

  /** The word chosen by writePhase before its flags are set. */
  function CommitWord(maxr: Word, maxw: Word, mrc: Word, epoch: nat): Word {
    MaxWord(MaxWord(BumpWord(MaxWord(maxr, maxw)), BumpWord(mrc)), Word(false, true, false, 0, epoch))
  }

  function Bump(v: Ver): Ver { Ver(v.epoch, (v.tid + 1) % TID_LIMIT) }

  /** The same choice on stamps, as the protocol model uses it. */
  function CommitVer(maxr: Ver, maxw: Ver, mrc: Ver, epoch: nat): Ver {
    Later(Later(Bump(Later(maxr, maxw)), Bump(mrc)), Ver(epoch, 0))
  }

  lemma CommitWordStamp(maxr: Word, maxw: Word, mrc: Word, epoch: nat)
    requires Fits(maxr) && Fits(maxw) && Fits(mrc) && epoch < EPOCH_LIMIT
    ensures Fits(CommitWord(maxr, maxw, mrc, epoch))
    ensures Stamp(CommitWord(maxr, maxw, mrc, epoch)) == CommitVer(Stamp(maxr), Stamp(maxw), Stamp(mrc), epoch)
  {
    MaxStamp(maxr, maxw);
    var a, b := BumpWord(MaxWord(maxr, maxw)), BumpWord(mrc);
    MaxStamp(a, b);
    MaxStamp(MaxWord(a, b), Word(false, true, false, 0, epoch));
  }

  /** The TID field of the current epoch has a successor. */
  predicate Room(v: Ver, epoch: nat) { v.epoch == epoch ==> v.tid + 1 < TID_LIMIT }

  /**
    The commit TID lies in the epoch loaded in validation.  It exceeds everything the transaction
    observed and the worker's previous TID exactly when the 29-bit TID field does not wrap.
   */
  lemma CommitVerExceeds(maxr: Ver, maxw: Ver, mrc: Ver, epoch: nat)
    requires maxr.epoch <= epoch && maxw.epoch <= epoch && mrc.epoch <= epoch
    ensures var c := CommitVer(maxr, maxw, mrc, epoch);
            && c.epoch == epoch
            && (Below(maxr, c) && Below(maxw, c) && Below(mrc, c)
                <==> Room(Later(maxr, maxw), epoch) && Room(mrc, epoch))
  {
    var a := Later(maxr, maxw);
    assert AtMost(maxr, a) && AtMost(maxw, a);
    assert a == maxr || a == maxw;
  }

  /**
    It is the least such TID: no version of the loaded epoch that exceeds everything observed and the
    worker's previous TID comes before it.
   */
  lemma CommitVerIsLeast(maxr: Ver, maxw: Ver, mrc: Ver, epoch: nat, v: Ver)
    requires maxr.epoch <= epoch && maxw.epoch <= epoch && mrc.epoch <= epoch
    requires v.epoch == epoch && Below(maxr, v) && Below(maxw, v) && Below(mrc, v)
    ensures AtMost(CommitVer(maxr, maxw, mrc, epoch), v)
    ensures Room(Later(maxr, maxw), epoch) && Room(mrc, epoch)
  {
    var a := Later(maxr, maxw);
    assert a == maxr || a == maxw;
    assert Below(a, v);
  }

  /** A wrap makes the "next" TID smaller than one already given out in the same epoch. */
  lemma CommitVerCanWrap()
    ensures var seen := Ver(7, TID_LIMIT - 1); Below(CommitVer(seen, ZERO, ZERO, 7), seen)
  {
    assert Bump(Ver(7, TID_LIMIT - 1)) == Ver(7, 0);
    assert Bump(ZERO) == Ver(0, 1);
  }
}
