/**
  Steps that leave the serial order alone: operations, locking, releasing, installing.
 */
module SiloLocal {
  import opened Silo
  import opened SiloInv
  import opened SiloRely

  predicate DirtyAt(k: Worker, r: Rid) {
    k.phase.Installing? && k.phase.dirty && k.phase.i < |k.wset| && k.wset[k.phase.i].r == r
  }

  /** Outside the touched records the worker keeps its locks and its standing. */
  ghost predicate Keeps(k: Worker, k': Worker, t: set<Rid>) {
    && (forall r :: r !in t && HoldsRid(k, r) ==>
          HoldsRid(k', r) && (Chosen(k.phase) <==> Chosen(k'.phase)) && (Chosen(k.phase) ==> k'.pos == k.pos))
    && (forall r :: r !in t ==> DirtyAt(k, r) == DirtyAt(k', r))
    && (InFlight(k.phase) ==> InFlight(k'.phase) && k'.pos == k.pos)
  }

  ghost predicate LocalStep(s: State, s': State, w: nat, t: set<Rid>) {
    && w < |s.workers| && |s'.workers| == |s.workers|
    && (forall u :: 0 <= u < |s.workers| && u != w ==> s'.workers[u] == s.workers[u])
    && s.ge <= s'.ge && s'.init == s.init && s'.order == s.order
    && (forall r :: r in s.recs ==> r in s'.recs)
    && (forall r :: r in s'.recs && r !in t ==> r in s.recs && s'.recs[r] == s.recs[r])
    && Keeps(s.workers[w], s'.workers[w], t) && s'.workers[w].mrc == s.workers[w].mrc
  }

  lemma SameDirt(s: State, s': State, w: nat, t: set<Rid>, r: Rid)
    requires Inv(s) && LocalStep(s, s', w, t) && r in s.recs && r !in t
    ensures Dirty(s', r) == Dirty(s, r) && Unsettled(s', r) == Unsettled(s, r) && Settled(s', r) == Settled(s, r)
  {
    assert RInv(s, r);
    if s.recs[r].owner == Own(w) {
      assert HoldsRid(s.workers[w], r);
      assert DirtyAt(s.workers[w], r) == DirtyAt(s'.workers[w], r);
    }
  }

  lemma UntouchedRec(s: State, s': State, w: nat, t: set<Rid>, r: Rid)
    requires Inv(s) && LocalStep(s, s', w, t) && r in s.recs && r !in t
    ensures r in s'.recs && RInv(s', r) && RecRely(s, s', r)
  {
    assert RInv(s, r);
    SameDirt(s, s', w, t, r);
  }

  /** The touched records were free, or the worker's own, and move forward. */
  ghost predicate Touched(s: State, s': State, w: nat, r: Rid) {
    && r in s'.recs && RInv(s', r)
    && (r in s.recs ==> RecRely(s, s', r) && (s.recs[r].owner.Own? ==> s.recs[r].owner.w == w))
  }

  lemma LocalRely(s: State, s': State, w: nat, t: set<Rid>, u: nat)
    requires Inv(s) && LocalStep(s, s', w, t) && u < |s.workers| && u != w
    requires forall r :: r in t ==> Touched(s, s', w, r)
    ensures Rely(s, s', u)
  {
    forall r | r in s.recs ensures r in s'.recs && RecRely(s, s', r) {
      if r in t {
        assert Touched(s, s', w, r);
      } else {
        UntouchedRec(s, s', w, t, r);
      }
    }
    forall r | r in s.recs && s.recs[r].owner == Own(u) ensures s'.recs[r] == s.recs[r] {
      assert r in t ==> Touched(s, s', w, r);
    }
  }

  lemma LocalEntry(s: State, s': State, w: nat, t: set<Rid>, p: nat)
    requires Inv(s) && LocalStep(s, s', w, t) && p < |s.order|
    ensures OInv(s', p)
  {
    assert OInv(s, p);
    var e := s.order[p];
    if e.status.Committed? {
      forall i | 0 <= i < |e.rset| ensures Fixed(s', p, e.rset[i]) {
        assert Fixed(s, p, e.rset[i]);
      }
    }
  }

  /** A local step keeps the invariant if it does so for its worker and the records it touches. */
  lemma LocalKeeps(s: State, s': State, w: nat, t: set<Rid>)
    requires Inv(s) && LocalStep(s, s', w, t) && WInv(s', w)
    requires forall r :: r in t ==> Touched(s, s', w, r)
    ensures Inv(s')
  {
    forall u | 0 <= u < |s'.workers| ensures WInv(s', u) {
      if u != w {
        LocalRely(s, s', w, t, u);
        WStays(s, s', u);
      }
    }
    forall r | r in s'.recs ensures RInv(s', r) {
      if r in t {
        assert Touched(s, s', w, r);
      } else {
        UntouchedRec(s, s', w, t, r);
      }
    }
    forall p | 0 <= p < |s'.order| ensures OInv(s', p) {
      LocalEntry(s, s', w, t, p);
    }
  }

  // ---------------------------------------------------------------- epochs and operations

  predicate RestEvent(e: Event) { e.EwBegin? || e.Lead? || e.EwLoad? || e.EwStore? || e.Begin? }

  /** A worker without a transaction, or at the start of one. */
  lemma EmptyWorker(s: State, w: nat)
    requires w < |s.workers|
    requires var k := s.workers[w];
             k.rset == [] && k.wset == [] && (Resting(k.phase) || k.phase.Exec?)
             && k.maxr.epoch <= s.ge && k.maxw.epoch <= s.ge && k.mrc.epoch <= s.ge
    ensures WInv(s, w)
  {
  }

  lemma RestStep(s: State, e: Event)
    requires Inv(s) && Enabled(s, e) && RestEvent(e)
    ensures var k, k', s' := s.workers[e.w], Step(s, e).workers[e.w], Step(s, e);
            && s' == s.(ge := s'.ge, workers := s.workers[e.w := k']) && s.ge <= s'.ge
            && k.wset == [] && k.rset == [] && k'.wset == [] && k'.rset == [] && Resting(k.phase)
            && (Resting(k'.phase) || k'.phase.Exec?)
            && k'.maxr.epoch <= s.ge && k'.maxw.epoch <= s.ge && k'.mrc == k.mrc && k.mrc.epoch <= s.ge
  {
    assert WInv(s, e.w);
  }

  lemma RestKeeps(s: State, e: Event)
    requires Inv(s) && Enabled(s, e) && RestEvent(e)
    ensures Inv(Step(s, e))
  {
    RestStep(s, e);
    EmptyWorker(Step(s, e), e.w);
    LocalKeeps(s, Step(s, e), e.w, {});
  }

  lemma ReadTidKeeps(s: State, w: nat, r: Rid)
    requires Inv(s) && Enabled(s, ReadTid(w, r))
    ensures Inv(Step(s, ReadTid(w, r)))
  {
    var s' := Step(s, ReadTid(w, r));
    assert WInv(s, w) && RInv(s, r);
    SameHolds(s, s', w);
    OwnPartsKept(s, s', w);
    LocalKeeps(s, s', w, {});
  }

  lemma ReadCheckKeeps(s: State, w: nat)
    requires Inv(s) && Enabled(s, ReadCheck(w))
    ensures Inv(Step(s, ReadCheck(w)))
  {
    var s' := Step(s, ReadCheck(w));
    assert WInv(s, w) && RInv(s, s.workers[w].phase.r);
    SameHolds(s, s', w);
    OwnPartsKept(s, s', w);
    LocalKeeps(s, s', w, {});
  }

  predicate Plain(ph: Phase) { ph.Exec? || ph.Checking? || ph.Fetching? }

  lemma SameHolds(s: State, s': State, w: nat)
    requires w < |s.workers| && w < |s'.workers|
    requires var k, k' := s.workers[w], s'.workers[w];
             k'.wset == k.wset && Plain(k.phase)
                 && (Plain(k'.phase) || k'.phase == Locking(0) || k'.phase == Dropping(0))
    ensures Keeps(s.workers[w], s'.workers[w], {})
  {
    var k, k' := s.workers[w], s'.workers[w];
    forall r | HoldsRid(k, r) ensures HoldsRid(k', r) {
      var m :| 0 <= m < |k.wset| && Holds(k, m) && k.wset[m].r == r;
      assert Holds(k', m);
    }
  }

  /** A step that keeps the sets and takes no lock keeps what the worker knows of its locks and reads. */
  ghost predicate SameSets(s: State, s': State, w: nat) {
    && Inv(s) && LocalStep(s, s', w, {}) && s'.recs == s.recs && s'.ge == s.ge
    && (var k, k' := s.workers[w], s'.workers[w];
        && k' == k.(phase := k'.phase)
        && Plain(k.phase) && (Plain(k'.phase) || k'.phase == Locking(0) || k'.phase == Dropping(0)))
  }

  lemma OwnHolds(s: State, s': State, w: nat)
    requires SameSets(s, s', w)
    ensures WShape(s'.workers[w]) && WHolds(s', w)
  {
    assert WInv(s, w);
    var k, k' := s.workers[w], s'.workers[w];
    forall m | 0 <= m < |k.wset| && Holds(k', m) ensures Holds(k, m) && k.wset[m].op.Insert? {
    }
  }

  lemma OwnReads(s: State, s': State, w: nat)
    requires SameSets(s, s', w)
    requires var k' := s'.workers[w]; k'.phase.Checking? || k'.phase.Fetching? ==>
          ReadingOk(s', k'.phase.r, k'.phase.ver)
    ensures WReads(s', w)
  {
    assert WInv(s, w);
    var k, k' := s.workers[w], s'.workers[w];
    forall i | 0 <= i < |k.rset| ensures ReadOk(s', k.rset[i], Cap(s', k')) {
      assert ReadOk(s, k.rset[i], Cap(s, k));
      SameDirt(s, s', w, {}, k.rset[i].r);
    }
  }

  lemma OwnMax(s: State, s': State, w: nat)
    requires SameSets(s, s', w)
    ensures WHolds(s', w) && WMax(s', w)
  {
    OwnHolds(s, s', w);
    assert WInv(s, w);
    var k, k' := s.workers[w], s'.workers[w];
    forall m | 0 <= m < |k.wset| && Holds(k', m) ensures k.wset[m].op.Insert? {
    }
  }

  lemma OwnPartsKept(s: State, s': State, w: nat)
    requires SameSets(s, s', w)
    requires var k' := s'.workers[w]; k'.phase.Checking? || k'.phase.Fetching? ==>
          ReadingOk(s', k'.phase.r, k'.phase.ver)
    ensures WInv(s', w)
  {
    OwnHolds(s, s', w);
    OwnReads(s, s', w);
    OwnMax(s, s', w);
  }

  lemma GiveUpKeeps(s: State, e: Event)
    requires Inv(s) && Enabled(s, e) && (e.GiveUp? || e.LockBegin?)
    ensures Inv(Step(s, e))
  {
    var s' := Step(s, e);
    assert WInv(s, e.w);
    SameHolds(s, s', e.w);
    OwnPartsKept(s, s', e.w);
    LocalKeeps(s, s', e.w, {});
  }
}
