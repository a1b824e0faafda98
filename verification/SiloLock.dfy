/**
  Reads, local writes, inserts, lock acquisition and lock release.
 */
module SiloLock {
  import opened Base
  import opened Tid
  import opened Silo
  import opened SiloInv
  import opened SiloLocal

  lemma StillHeld(k: Worker, k': Worker, m: nat)
    requires m < |k.wset| && m < |k'.wset| && Holds(k', m) && k'.wset[m] == k.wset[m]
    ensures HoldsRid(k', k.wset[m].r)
  {
  }

  // ---------------------------------------------------------------- reads and local writes

  lemma ReadBodyReads(s: State, w: nat)
    requires Inv(s) && Enabled(s, ReadBody(w))
    requires LocalStep(s, Step(s, ReadBody(w)), w, {})
    ensures WReads(Step(s, ReadBody(w)), w)
  {
    var s' := Step(s, ReadBody(w));
    assert WInv(s, w);
    var k, k' := s.workers[w], s'.workers[w];
    forall i | 0 <= i < |k'.rset| ensures ReadOk(s', k'.rset[i], Cap(s', k')) {
      if i < |k.rset| {
        assert ReadOk(s, k.rset[i], Cap(s, k));
      }
      SameDirt(s, s', w, {}, k'.rset[i].r);
    }
    ReservedGrows(k, k');
  }

  /** The locks of a worker between operations are those of its inserts. */
  lemma ExecHolds(s: State, s': State, w: nat)
    requires Inv(s) && LocalStep(s, s', w, {}) && s'.recs == s.recs && s'.ge == s.ge
    requires var k, k' := s.workers[w], s'.workers[w];
             && Plain(k.phase) && k'.phase.Exec? && k.wset <= k'.wset && Distinct(k'.wset)
             && k'.maxr == k.maxr && k'.maxw == k.maxw && k'.mrc == k.mrc
             && (forall m :: |k.wset| <= m < |k'.wset| ==> !k'.wset[m].op.Insert? && k'.wset[m].r in s.recs)
    ensures WShape(s'.workers[w]) && WHolds(s', w) && WMax(s', w)
  {
    assert WInv(s, w);
    var k, k' := s.workers[w], s'.workers[w];
    forall m | 0 <= m < |k'.wset| && k'.wset[m].op.Insert?
        ensures m < |k.wset| && k'.wset[m] == k.wset[m] && Holds(k, m) {
    }
  }

  lemma ReadBodyKeeps(s: State, w: nat)
    requires Inv(s) && Enabled(s, ReadBody(w))
    ensures Inv(Step(s, ReadBody(w)))
  {
    var s' := Step(s, ReadBody(w));
    assert WInv(s, w);
    SameHolds(s, s', w);
    assert LocalStep(s, s', w, {});
    ReadBodyReads(s, w);
    ExecHolds(s, s', w);
    LocalKeeps(s, s', w, {});
  }

  lemma ReservedGrows(k: Worker, k': Worker)
    requires k.rset <= k'.rset
    ensures forall r :: Reserved(k.rset, r) ==> Reserved(k'.rset, r)
  {
    forall r | Reserved(k.rset, r) ensures Reserved(k'.rset, r) {
      var i :| 0 <= i < |k.rset| && k.rset[i] == RElem(r, ZERO, None);
      assert k'.rset[i] == RElem(r, ZERO, None);
    }
  }

  lemma GrowKeeps(k: Worker, k': Worker, t: set<Rid>)
    requires k.phase.Exec? && k'.phase.Exec? && k.wset <= k'.wset
    ensures Keeps(k, k', t)
  {
    forall r | HoldsRid(k, r) ensures HoldsRid(k', r) {
      var m :| 0 <= m < |k.wset| && Holds(k, m) && k.wset[m].r == r;
      StillHeld(k, k', m);
    }
  }

  lemma AddWriteReads(s: State, w: nat, r: Rid, op: Op, val: Val)
    requires Inv(s) && Enabled(s, AddWrite(w, r, op, val))
    requires LocalStep(s, Step(s, AddWrite(w, r, op, val)), w, {})
    ensures WReads(Step(s, AddWrite(w, r, op, val)), w)
  {
    var s' := Step(s, AddWrite(w, r, op, val));
    assert WInv(s, w);
    var k, k' := s.workers[w], s'.workers[w];
    forall i | 0 <= i < |k'.rset| ensures ReadOk(s', k'.rset[i], Cap(s', k')) {
      assert ReadOk(s, k.rset[i], Cap(s, k));
      SameDirt(s, s', w, {}, k'.rset[i].r);
    }
    forall m | 0 <= m < |k'.wset| && k'.wset[m].op.Insert? ensures m < |k.wset| && k'.wset[m] == k.wset[m] {
    }
  }

  lemma AddWriteKeeps(s: State, w: nat, r: Rid, op: Op, val: Val)
    requires Inv(s) && Enabled(s, AddWrite(w, r, op, val))
    ensures Inv(Step(s, AddWrite(w, r, op, val)))
  {
    var s' := Step(s, AddWrite(w, r, op, val));
    assert WInv(s, w);
    GrowKeeps(s.workers[w], s'.workers[w], {});
    assert LocalStep(s, s', w, {});
    AddWriteReads(s, w, r, op, val);
    ExecHolds(s, s', w);
    LocalKeeps(s, s', w, {});
  }

  /** Nobody has committed a write to a record that does not exist. */
  lemma NeverWritten(s: State, r: Rid)
    requires Inv(s) && r !in s.recs
    ensures LastWriter(s.order, |s.order|, r) == -1 && r !in s.init
  {
    forall p | 0 <= p < |s.order| ensures !CommittedWriter(s.order[p], r) {
      assert OInv(s, p);
    }
  }

  lemma AddInsertOwn(s: State, w: nat, r: Rid, val: Val)
    requires Inv(s) && Enabled(s, AddInsert(w, r, val))
    ensures WInv(Step(s, AddInsert(w, r, val)), w)
  {
    var s' := Step(s, AddInsert(w, r, val));
    assert WInv(s, w);
    var k, k' := s.workers[w], s'.workers[w];
    GrowKeeps(k, k', {r});
    assert s.init.Keys <= s.recs.Keys;
    forall i | 0 <= i < |k'.rset| ensures ReadOk(s', k'.rset[i], Cap(s', k')) {
      if i < |k.rset| {
        assert ReadOk(s, k.rset[i], Cap(s, k));
        SameDirt(s, s', w, {r}, k'.rset[i].r);
      }
    }
    ReservedGrows(k, k');
    assert k'.rset[|k.rset|] == RElem(r, ZERO, None);
    forall m | 0 <= m < |k'.wset| && Holds(k', m) ensures m < |k.wset| ==> Holds(k, m) {
    }
  }

  lemma AddInsertKeeps(s: State, w: nat, r: Rid, val: Val)
    requires Inv(s) && Enabled(s, AddInsert(w, r, val))
    ensures Inv(Step(s, AddInsert(w, r, val)))
  {
    var s' := Step(s, AddInsert(w, r, val));
    assert WInv(s, w);
    var k, k' := s.workers[w], s'.workers[w];
    GrowKeeps(k, k', {r});
    NeverWritten(s, r);
    assert Holds(k', |k.wset|);
    StillHeld(k', k', |k.wset|);
    AddInsertOwn(s, w, r, val);
    LocalKeeps(s, s', w, {r});
  }

  // ---------------------------------------------------------------- locking and releasing

  predicate Grasping(ph: Phase) { ph.Locking? || ph.Locked? || ph.Unlocking? || ph.Dropping? }

  /** Between start of locking and LoadEpoch, and on the way out, only the phase, the lock set and maxw move. */
  ghost predicate GraspStep(s: State, s': State, w: nat, t: set<Rid>) {
    && Inv(s) && LocalStep(s, s', w, t) && s'.ge == s.ge && s'.recs.Keys == s.recs.Keys
    && (var k, k' := s.workers[w], s'.workers[w];
        && k' == k.(phase := k'.phase, maxw := k'.maxw)
        && Grasping(k.phase) && Grasping(k'.phase) && (Open(k'.phase) ==> Open(k.phase)) && WShape(k')
        && (forall m :: 0 <= m < |k.wset| && k.wset[m].r !in t && Holds(k', m) ==> Holds(k, m)))
    && (forall r :: r in t ==> r in s.recs && s'.recs[r].ver == s.recs[r].ver && s'.recs[r].absent == s.recs[r].absent
                               && s'.recs[r].body == s.recs[r].body && !Dirty(s, r))
    && (forall m :: 0 <= m < |s.workers[w].wset| && s.workers[w].wset[m].r in t && Holds(s'.workers[w], m)
          ==> s'.recs[s.workers[w].wset[m].r].owner == Own(w) && !s.workers[w].wset[m].op.Insert?)
  }

  lemma GraspHolds(s: State, s': State, w: nat, t: set<Rid>)
    requires GraspStep(s, s', w, t)
    ensures WHolds(s', w)
  {
    assert WInv(s, w);
  }

  lemma GraspReads(s: State, s': State, w: nat, t: set<Rid>)
    requires GraspStep(s, s', w, t)
    ensures WReads(s', w)
  {
    assert WInv(s, w);
    var k, k' := s.workers[w], s'.workers[w];
    if Open(k'.phase) {
      forall i | 0 <= i < |k.rset| ensures ReadOk(s', k.rset[i], Cap(s', k')) {
        var e := k.rset[i];
        assert ReadOk(s, e, Cap(s, k));
        if e.r !in t {
          SameDirt(s, s', w, t, e.r);
        }
      }
    }
  }

  /** The part of WMax that concerns locks. */
  lemma GraspKeeps(s: State, s': State, w: nat, t: set<Rid>)
    requires GraspStep(s, s', w, t)
    requires forall r :: r in t ==> Touched(s, s', w, r)
    requires WHolds(s', w) ==> WMax(s', w)
    ensures Inv(s')
  {
    GraspHolds(s, s', w, t);
    GraspReads(s, s', w, t);
    LocalKeeps(s, s', w, t);
  }

  /** Same locks, same records. */
  lemma GraspQuiet(s: State, s': State, w: nat)
    requires Inv(s) && w < |s.workers| == |s'.workers|
    requires var k, k' := s.workers[w], s'.workers[w];
             && s' == Put(s, w, k') && k' == k.(phase := k'.phase) && Grasping(k.phase) && Grasping(k'.phase)
                 && WShape(k')
             && (Open(k'.phase) ==> Open(k.phase)) && (k'.phase.Unlocking? ==> Open(k.phase) || k.phase.Unlocking?)
             && (forall m :: 0 <= m < |k.wset| ==> (Holds(k, m) <==> Holds(k', m)))
    ensures Inv(s')
  {
    assert WInv(s, w);
    var k, k' := s.workers[w], s'.workers[w];
    forall r | HoldsRid(k, r) ensures HoldsRid(k', r) {
      var m :| 0 <= m < |k.wset| && Holds(k, m) && k.wset[m].r == r;
      StillHeld(k, k', m);
    }
    assert LocalStep(s, s', w, {});
    GraspKeeps(s, s', w, {});
  }

  // ---- one element locked

  ghost predicate Taking(s: State, w: nat, r: Rid) {
    Inv(s) && Enabled(s, LockNext(w)) &&
    var k := s.workers[w];
    k.phase.i < |k.wset| && !k.wset[k.phase.i].op.Insert? && k.wset[k.phase.i].r == r && !s.recs[r].lock
  }

  lemma {:induction false} TakeStep(s: State, w: nat, r: Rid)
    requires Taking(s, w, r)
    ensures GraspStep(s, StepLock(s, w), w, {r})
  {
    assert WInv(s, w) && RInv(s, r);
    var s', k := StepLock(s, w), s.workers[w];
    var k' := s'.workers[w];
    forall q | HoldsRid(k, q) ensures HoldsRid(k', q) {
      var m :| 0 <= m < |k.wset| && Holds(k, m) && k.wset[m].r == q;
      StillHeld(k, k', m);
    }
  }

  lemma TakeRecord(s: State, w: nat, r: Rid)
    requires Taking(s, w, r)
    ensures Touched(s, StepLock(s, w), w, r)
  {
    assert WInv(s, w) && RInv(s, r);
    var k, k' := s.workers[w], StepLock(s, w).workers[w];
    assert Holds(k', k.phase.i);
    StillHeld(k, k', k.phase.i);
  }

  lemma TakeMax(s: State, w: nat, r: Rid)
    requires Taking(s, w, r) && WHolds(StepLock(s, w), w)
    ensures WMax(StepLock(s, w), w)
  {
    assert WInv(s, w) && RInv(s, r);
    var k, s' := s.workers[w], StepLock(s, w);
    var k' := s'.workers[w];
    forall m | 0 <= m < |k'.wset| && Holds(k', m)
      ensures AtMost(s'.recs[k'.wset[m].r].ver, k'.maxw)
      ensures !k'.wset[m].op.Insert? ==> Known(s'.init, s'.order, |s'.order|, k'.wset[m].r)
    {
      assert m != k.phase.i ==> Holds(k, m);
    }
  }

  lemma TakeKeeps(s: State, w: nat, r: Rid)
    requires Taking(s, w, r)
    ensures Inv(StepLock(s, w))
  {
    TakeStep(s, w, r);
    TakeRecord(s, w, r);
    GraspHolds(s, StepLock(s, w), w, {r});
    TakeMax(s, w, r);
    GraspKeeps(s, StepLock(s, w), w, {r});
  }

  lemma LockKeeps(s: State, w: nat)
    requires Inv(s) && Enabled(s, LockNext(w))
    ensures Inv(StepLock(s, w))
  {
    var k := s.workers[w];
    var i := k.phase.i;
    if i < |k.wset| && Taking(s, w, k.wset[i].r) {
      TakeKeeps(s, w, k.wset[i].r);
    } else {
      assert WInv(s, w);
      GraspQuiet(s, StepLock(s, w), w);
    }
  }

  // ---- one element released, or one insert abandoned

  /** The state after worker `w` moves to `ph` and gives `r` to `owner`. */
  function Given(s: State, w: nat, ph: Phase, r: Rid, owner: Owner): State
    requires w < |s.workers| && r in s.recs
  {
    PutRec(s, w, s.workers[w].(phase := ph), r, s.recs[r].(lock := !owner.Free?, owner := owner))
  }

  ghost predicate Giving(s: State, w: nat, ph: Phase, i: nat, owner: Owner) {
    Inv(s) && w < |s.workers| && !owner.Own? &&
    var k := s.workers[w];
    && i < |k.wset| && k.wset[i].r in s.recs && Holds(k, i)
    && ((k.phase.Unlocking? && k.phase.i == i < k.phase.n && ph == Unlocking(i + 1, k.phase.n) && !k.wset[i].op.Insert?
        && owner.Free?)
        || (k.phase.Dropping? && k.phase.i == i && ph == Dropping(i + 1) && k.wset[i].op.Insert? && owner.Orphan?))
  }

  lemma GiveStep(s: State, w: nat, ph: Phase, i: nat, owner: Owner)
    requires Giving(s, w, ph, i, owner)
    ensures GraspStep(s, Given(s, w, ph, s.workers[w].wset[i].r, owner), w, {s.workers[w].wset[i].r})
  {
    assert WInv(s, w);
    var k := s.workers[w];
    var r := k.wset[i].r;
    GiveHeld(k, ph, i);
    assert s.recs[r].owner == Own(w);
    assert LocalStep(s, Given(s, w, ph, r, owner), w, {r});
  }

  /** Moving past element `i` gives up exactly that element. */
  lemma GiveHeld(k: Worker, ph: Phase, i: nat)
    requires i < |k.wset| && Distinct(k.wset) && Holds(k, i)
    requires (k.phase.Unlocking? && k.phase.i == i < k.phase.n <= |k.wset| && ph == Unlocking(i + 1, k.phase.n)
          && !k.wset[i].op.Insert?)
             || (k.phase.Dropping? && k.phase.i == i && ph == Dropping(i + 1) && k.wset[i].op.Insert?)
    ensures forall m :: 0 <= m < |k.wset| ==> (Holds(k.(phase := ph), m) <==> m != i && Holds(k, m))
    ensures forall q :: q != k.wset[i].r && HoldsRid(k, q) ==> HoldsRid(k.(phase := ph), q)
  {
    var k' := k.(phase := ph);
    forall q | q != k.wset[i].r && HoldsRid(k, q) ensures HoldsRid(k', q) {
      var m :| 0 <= m < |k.wset| && Holds(k, m) && k.wset[m].r == q;
      StillHeld(k, k', m);
    }
  }

  lemma GiveRecord(s: State, w: nat, ph: Phase, i: nat, owner: Owner)
    requires Giving(s, w, ph, i, owner)
    ensures Touched(s, Given(s, w, ph, s.workers[w].wset[i].r, owner), w, s.workers[w].wset[i].r)
  {
    assert WInv(s, w) && RInv(s, s.workers[w].wset[i].r);
  }

  lemma GiveKeeps(s: State, w: nat, ph: Phase, i: nat, owner: Owner)
    requires Giving(s, w, ph, i, owner)
    ensures Inv(Given(s, w, ph, s.workers[w].wset[i].r, owner))
  {
    assert WInv(s, w);
    var r := s.workers[w].wset[i].r;
    GiveStep(s, w, ph, i, owner);
    GiveRecord(s, w, ph, i, owner);
    GraspKeeps(s, Given(s, w, ph, r, owner), w, {r});
  }

  lemma UnlockKeeps(s: State, w: nat)
    requires Inv(s) && Enabled(s, UnlockNext(w))
    ensures Inv(StepUnlock(s, w))
  {
    assert WInv(s, w);
    var k := s.workers[w];
    var i := k.phase.i;
    if i < k.phase.n && !k.wset[i].op.Insert? {
      GiveKeeps(s, w, Unlocking(i + 1, k.phase.n), i, Free);
    } else {
      GraspQuiet(s, StepUnlock(s, w), w);
    }
  }

  lemma DropInsert(s: State, w: nat, i: nat)
    requires Inv(s) && Enabled(s, DropNext(w))
    requires var k := s.workers[w]; i == k.phase.i < |k.wset| && k.wset[i].op.Insert?
    ensures Inv(StepDrop(s, w))
  {
    assert WInv(s, w);
    var k := s.workers[w];
    assert RInv(s, k.wset[i].r) && Holds(k, i);
    GiveKeeps(s, w, Dropping(i + 1), i, Orphan);
    assert StepDrop(s, w) == Given(s, w, Dropping(i + 1), k.wset[i].r, Orphan);
  }

  lemma DropKeeps(s: State, w: nat)
    requires Inv(s) && Enabled(s, DropNext(w))
    ensures Inv(StepDrop(s, w))
  {
    var k := s.workers[w];
    var i := k.phase.i;
    if i < |k.wset| && k.wset[i].op.Insert? {
      DropInsert(s, w, i);
    } else {
      assert WInv(s, w);
      if i == |k.wset| {
        EmptyWorker(StepDrop(s, w), w);
        LocalKeeps(s, StepDrop(s, w), w, {});
      } else {
        GraspQuiet(s, StepDrop(s, w), w);
      }
    }
  }
}
