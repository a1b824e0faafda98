/**
  Validation and the write phase.
 */
module SiloCommit {
  import opened Base
  import opened Tid
  import opened Silo
  import opened SiloInv
  import opened SiloRely
  import opened SiloLocal
  import opened SiloLock

  // ---------------------------------------------------------------- validation, local part

  /** A posted worker that keeps its sets, its entry and its records. */
  ghost predicate PostedStep(s: State, s': State, w: nat) {
    && w < |s.workers| == |s'.workers|
    && (var k, k' := s.workers[w], s'.workers[w];
        && s' == Put(s, w, k')
        && k' == k.(phase := k'.phase, local := k'.local, maxr := k'.maxr)
        && WShape(k')
        && ((InFlight(k.phase) && InFlight(k'.phase)) || (k.phase.Logging? && k'.phase == Installing(0, false))))
  }

  lemma PostedLocal(s: State, s': State, w: nat)
    requires Inv(s) && PostedStep(s, s', w)
    ensures LocalStep(s, s', w, {})
  {
    var k, k' := s.workers[w], s'.workers[w];
    forall r | HoldsRid(k, r) ensures HoldsRid(k', r) {
      var m :| 0 <= m < |k.wset| && Holds(k, m) && k.wset[m].r == r;
      StillHeld(k, k', m);
    }
  }

  lemma PostedParts(s: State, s': State, w: nat)
    requires Inv(s) && PostedStep(s, s', w) && LocalStep(s, s', w, {})
    ensures WHolds(s', w) && WReads(s', w)
  {
    assert WInv(s, w);
    var k, k' := s.workers[w], s'.workers[w];
    if Open(k'.phase) {
      forall i | 0 <= i < |k.rset| ensures ReadOk(s', k.rset[i], Cap(s', k')) {
        assert ReadOk(s, k.rset[i], Cap(s, k));
        SameDirt(s, s', w, {}, k.rset[i].r);
      }
    }
  }

  lemma PostedKeeps(s: State, s': State, w: nat)
    requires Inv(s) && PostedStep(s, s', w)
    requires s'.workers[w].maxr.epoch <= s.workers[w].epoch
    requires !s'.workers[w].phase.Loaded? ==> s'.workers[w].local == s.workers[w].epoch
    requires var k' := s'.workers[w]; k'.phase.Validating? ==>
      WEntry(s, w) && forall i :: 0 <= i < k'.phase.j && i < |k'.rset| ==>
          Fixed(s, k'.pos, k'.rset[i]) && AtMost(k'.rset[i].ver, k'.maxr)
    ensures Inv(s')
  {
    assert WInv(s, w);
    PostedLocal(s, s', w);
    PostedParts(s, s', w);
    var k, k' := s.workers[w], s'.workers[w];
    assert WEntry(s', w);
    if k'.phase.Validating? {
      forall i | 0 <= i < k'.phase.j && i < |k'.rset| ensures Fixed(s', k'.pos, k'.rset[i]) {
        assert Fixed(s, k'.pos, k'.rset[i]);
      }
    }
    LocalKeeps(s, s', w, {});
  }

  lemma StoreEpochKeeps(s: State, w: nat)
    requires Inv(s) && Enabled(s, StoreEpoch(w))
    ensures Inv(Step(s, StoreEpoch(w)))
  {
    assert WInv(s, w);
    PostedKeeps(s, Step(s, StoreEpoch(w)), w);
  }

  lemma LoggedKeeps(s: State, w: nat)
    requires Inv(s) && Enabled(s, Logged(w))
    ensures Inv(Step(s, Logged(w)))
  {
    assert WInv(s, w);
    PostedKeeps(s, Step(s, Logged(w)), w);
  }

  /** The validation check passes on the j-th read. */
  ghost predicate Passes(s: State, w: nat) {
    Enabled(s, ValidateNext(w)) &&
    var k := s.workers[w];
    var e := k.rset[k.phase.j];
    s.recs[e.r].ver == e.ver && (s.recs[e.r].lock ==> Writes(k.wset, e.r))
  }

  /** A record that passes is not half replaced, and no other transaction in flight is about to replace it. */
  lemma PassedIsQuiet(s: State, w: nat)
    requires Inv(s) && Passes(s, w)
    ensures var r := s.workers[w].rset[s.workers[w].phase.j].r;
            && !Unsettled(s, r)
            && (s.recs[r].lock ==> s.recs[r].owner == Own(w))
  {
    assert WInv(s, w);
    var k := s.workers[w];
    var r := k.rset[k.phase.j].r;
    assert RInv(s, r);
    if s.recs[r].lock {
      var m :| 0 <= m < |k.wset| && k.wset[m].r == r;
      assert Holds(k, m);
    }
  }

  /** No earlier entry that is still pending writes a record that passes. */
  lemma PassedNotPending(s: State, w: nat, q: nat)
    requires Inv(s) && Passes(s, w) && q < |s.order| && s.order[q].status.Pending? && q != s.workers[w].pos
    ensures !Writes(s.order[q].wset, s.workers[w].rset[s.workers[w].phase.j].r)
  {
    var r := s.workers[w].rset[s.workers[w].phase.j].r;
    PassedIsQuiet(s, w);
    assert WInv(s, w) && OInv(s, q);
    var u := s.order[q].w;
    assert WInv(s, u) && RInv(s, r);
    forall m | 0 <= m < |s.order[q].wset| ensures s.order[q].wset[m].r != r {
      assert Holds(s.workers[u], m);
      assert s.recs[s.order[q].wset[m].r].owner == Own(u);
    }
  }

  /**
    The heart of validation: a read whose version is still current returned exactly what the serial
    order before this transaction holds, and nothing can change that any more.
   */
  lemma PassedIsFixed(s: State, w: nat)
    requires Inv(s) && Passes(s, w)
    ensures WEntry(s, w) && Posted(s.workers[w].phase)
    ensures Fixed(s, s.workers[w].pos, s.workers[w].rset[s.workers[w].phase.j])
  {
    assert WInv(s, w);
    var k := s.workers[w];
    var e := k.rset[k.phase.j];
    PassedIsQuiet(s, w);
    assert ReadOk(s, e, Cap(s, k)) && RInv(s, e.r);
    var p := LastWriter(s.order, |s.order|, e.r);
    assert p < k.pos;
    SameWriters(s.init, s.order, |s.order|, s.order, k.pos, e.r);
    forall q | 0 <= q < k.pos && s.order[q].status.Pending? ensures !Writes(s.order[q].wset, e.r) {
      PassedNotPending(s, w, q);
    }
  }

  lemma PassKeeps(s: State, w: nat)
    requires Inv(s) && Passes(s, w)
    ensures Inv(StepValidate(s, w))
  {
    PassedIsFixed(s, w);
    assert WInv(s, w);
    var k := s.workers[w];
    var s' := StepValidate(s, w);
    assert ReadOk(s, k.rset[k.phase.j], Cap(s, k));
    assert s' == Put(s, w, k.(phase := Validating(k.phase.j + 1),
          maxr := Later(k.maxr, s.recs[k.rset[k.phase.j].r].ver)));
    PostedKeeps(s, s', w);
  }

  // ---------------------------------------------------------------- the write phase

  ghost predicate Installs(s: State, w: nat) {
    Inv(s) && Enabled(s, InstallNext(w)) && s.workers[w].phase.i < |s.workers[w].wset|
  }

  lemma InstallLocal(s: State, w: nat)
    requires Installs(s, w)
    ensures LocalStep(s, StepInstall(s, w), w, {s.workers[w].wset[s.workers[w].phase.i].r})
  {
    assert WInv(s, w);
    var k, s' := s.workers[w], StepInstall(s, w);
    var k' := s'.workers[w];
    var r := k.wset[k.phase.i].r;
    forall q | q != r && HoldsRid(k, q) ensures HoldsRid(k', q) {
      var m :| 0 <= m < |k.wset| && Holds(k, m) && k.wset[m].r == q;
      StillHeld(k, k', m);
    }
  }

  lemma InstallHolds(s: State, w: nat)
    requires Installs(s, w)
    ensures WHolds(StepInstall(s, w), w)
  {
    assert WInv(s, w);
    hide WReads, WMax, WEntry, WPost;
    var k, s' := s.workers[w], StepInstall(s, w);
    var k' := s'.workers[w];
    forall m | 0 <= m < |k.wset| && Holds(k', m) ensures Holds(k, m) {
    }
    assert k.wset[k.phase.i].r in s.recs;
  }

  lemma InstallOwn(s: State, w: nat)
    requires Installs(s, w)
    ensures WInv(StepInstall(s, w), w)
  {
    assert WInv(s, w);
    InstallHolds(s, w);
    hide WHolds;
  }

  /** Once the TID word is stored the record shows this transaction's write, the last committed one. */
  lemma InstalledValue(s: State, w: nat, r: Rid)
    requires Installs(s, w) && r == s.workers[w].wset[s.workers[w].phase.i].r
    ensures s.workers[w].pos < |s.order|
    ensures VerAt(s.order, |s.order|, r) == s.workers[w].mrc
    ensures Known(s.init, s.order, |s.order|, r)
    ensures var el := s.workers[w].wset[s.workers[w].phase.i];
            ValAt(s.init, s.order, |s.order|, r) == if el.op.Delete? then None else Some(el.val)
  {
    assert WInv(s, w);
    var k := s.workers[w];
    EffectAt(k.wset, k.phase.i);
    assert Holds(k, k.phase.i);
    assert CommittedWriter(s.order[k.pos], r);
    assert LastWriter(s.order, |s.order|, r) == k.pos;
  }

  lemma InstallRecord(s: State, w: nat, r: Rid)
    requires Installs(s, w) && r == s.workers[w].wset[s.workers[w].phase.i].r
    ensures Touched(s, StepInstall(s, w), w, r)
  {
    assert WInv(s, w) && RInv(s, r);
    var k, s' := s.workers[w], StepInstall(s, w);
    assert Holds(k, k.phase.i);
    InstalledValue(s, w, r);
    if k.wset[k.phase.i].op.Write? && !k.phase.dirty {
      assert Holds(s'.workers[w], k.phase.i);
      StillHeld(k, s'.workers[w], k.phase.i);
      assert Dirty(s', r);
    } else {
      assert !Dirty(s', r);
    }
  }

  lemma InstallNextKeeps(s: State, w: nat)
    requires Installs(s, w)
    ensures Inv(StepInstall(s, w))
  {
    var r := s.workers[w].wset[s.workers[w].phase.i].r;
    InstallLocal(s, w);
    InstallOwn(s, w);
    InstallRecord(s, w, r);
    LocalKeeps(s, StepInstall(s, w), w, {r});
  }

  lemma InstallKeeps(s: State, w: nat)
    requires Inv(s) && Enabled(s, InstallNext(w))
    ensures Inv(StepInstall(s, w))
  {
    if s.workers[w].phase.i < |s.workers[w].wset| {
      InstallNextKeeps(s, w);
    } else {
      assert WInv(s, w);
      EmptyWorker(StepInstall(s, w), w);
      LocalKeeps(s, StepInstall(s, w), w, {});
    }
  }
}
