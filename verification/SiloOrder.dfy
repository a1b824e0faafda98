/**
  The three steps that change the serial order: a transaction enters it when it loads the epoch with
  its locks held, and leaves validation committed, with the choice of the commit TID, or aborted.
 */
module SiloOrder {
  import opened Base
  import opened Tid
  import opened Silo
  import opened SiloInv
  import opened SiloRely
  import opened SiloLocal
  import opened SiloLock
  import opened SiloCommit

  /** Entries before `p` that write `r` are the same in both orders, and no new ones are pending. */
  ghost predicate SamePast(s: State, s': State, p: nat, r: Rid) {
    && p <= |s.order| && p <= |s'.order| && s'.init == s.init
    && forall q :: 0 <= q < p && Writes(s'.order[q].wset, r) ==>
         && (CommittedWriter(s'.order[q], r) || CommittedWriter(s.order[q], r) ==> s'.order[q] == s.order[q])
         && (s'.order[q].status.Pending? ==> s.order[q].status.Pending?)
  }

  ghost predicate SameSets(s: State, s': State, p: nat) {
    p <= |s.order| && p <= |s'.order| && forall q :: 0 <= q < p ==> s'.order[q].wset == s.order[q].wset
  }

  lemma FixedAgain(s: State, s': State, p: nat, e: RElem)
    requires p <= |s.order| && Fixed(s, p, e) && SamePast(s, s', p, e.r) && SameSets(s, s', p)
    ensures Fixed(s', p, e)
  {
    SameWriters(s.init, s.order, p, s'.order, p, e.r);
  }

  /** `w` moves, the records stay, and nobody starts or stops installing except `w` on its own records. */
  ghost predicate OrderStep(s: State, s': State, w: nat) {
    && w < |s.workers| == |s'.workers| && s'.recs == s.recs && s'.init == s.init && s'.ge == s.ge
    && s'.workers == s.workers[w := s'.workers[w]]
    && !Chosen(s.workers[w].phase) && !s'.workers[w].phase.Installing?
    && |s.order| <= |s'.order|
  }

  lemma OrderDirt(s: State, s': State, w: nat, r: Rid)
    requires OrderStep(s, s', w)
    ensures Dirty(s', r) == Dirty(s, r)
    ensures r in s.recs && s.recs[r].owner != Own(w) ==> Unsettled(s', r) == Unsettled(s, r)
  {
  }

  lemma OrderRely(s: State, s': State, w: nat, u: nat)
    requires Inv(s) && OrderStep(s, s', w) && u < |s.workers| && u != w
    requires forall p :: 0 <= p < |s.order| ==>
          EntryRely(s.order[p], s'.order[p], u) && DecideRely(s, s.order[p], s'.order[p])
    requires forall p :: |s.order| <= p < |s'.order| ==> NewRely(s, s'.order[p], u)
    ensures Rely(s, s', u)
  {
    forall r | r in s.recs ensures RecRely(s, s', r) {
      OrderDirt(s, s', w, r);
    }
  }

  /** Everything but the moving worker, the records and the entries. */
  lemma OrderKeeps(s: State, s': State, w: nat)
    requires Inv(s) && OrderStep(s, s', w)
    requires forall u :: 0 <= u < |s.workers| && u != w ==> Rely(s, s', u)
    requires WInv(s', w)
    requires forall r :: r in s.recs ==> RInv(s', r)
    requires forall p :: 0 <= p < |s'.order| ==> OInv(s', p)
    ensures Inv(s')
  {
    forall u | 0 <= u < |s'.workers| ensures WInv(s', u) {
      if u != w {
        assert WInv(s, u);
        WStays(s, s', u);
      }
    }
  }

  // ---------------------------------------------------------------- entering the order

  lemma LoadOwn(s: State, w: nat)
    requires Inv(s) && Enabled(s, LoadEpoch(w))
    ensures WInv(Step(s, LoadEpoch(w)), w)
  {
    assert WInv(s, w);
    var s' := Step(s, LoadEpoch(w));
    var k, k' := s.workers[w], s'.workers[w];
    forall m | 0 <= m < |k.wset| ensures Holds(k, m) {
    }
    forall i | 0 <= i < |k.rset| ensures ReadOk(s', k.rset[i], Cap(s', k')) {
      assert ReadOk(s, k.rset[i], Cap(s, k));
      OrderDirt(s, s', w, k.rset[i].r);
    }
    forall m | 0 <= m < |k.wset| && !k.wset[m].op.Insert?
      ensures Known(s'.init, s'.order, |s.order|, k.wset[m].r) && Known(s'.init, s'.order, |s'.order|, k.wset[m].r)
    {
      assert Known(s.init, s.order, |s.order|, k.wset[m].r);
      SameWriters(s.init, s.order, |s.order|, s'.order, |s.order|, k.wset[m].r);
      SameWriters(s.init, s.order, |s.order|, s'.order, |s'.order|, k.wset[m].r);
    }
  }

  lemma LoadLock(s: State, w: nat, r: Rid)
    requires Inv(s) && Enabled(s, LoadEpoch(w)) && r in s.recs
    ensures RLock(Step(s, LoadEpoch(w)), r)
  {
    assert RInv(s, r);
    var s' := Step(s, LoadEpoch(w));
    if s.recs[r].owner == Own(w) {
      var m :| 0 <= m < |s.workers[w].wset| && Holds(s.workers[w], m) && s.workers[w].wset[m].r == r;
      StillHeld(s.workers[w], s'.workers[w], m);
    }
  }

  lemma LoadSettled(s: State, w: nat, r: Rid)
    requires Inv(s) && Enabled(s, LoadEpoch(w)) && r in s.recs
    ensures var s' := Step(s, LoadEpoch(w));
            && Dirty(s', r) == Dirty(s, r)
            && Settled(s, r) <= |s.order|
                && Settled(s', r) == (if Settled(s, r) == |s.order| && !Unsettled(s', r) then |s'.order|
                    else Settled(s, r))
            && (Settled(s', r) != Settled(s, r) ==> Settled(s, r) == |s.order| && Settled(s', r) == |s'.order|)
  {
    OrderDirt(s, Step(s, LoadEpoch(w)), w, r);
    if s.recs[r].owner.Own? {
      assert RInv(s, r);
      assert WInv(s, s.recs[r].owner.w);
    }
  }

  lemma LoadRecord(s: State, w: nat, r: Rid)
    requires Inv(s) && Enabled(s, LoadEpoch(w)) && r in s.recs
    ensures RInv(Step(s, LoadEpoch(w)), r)
  {
    assert RInv(s, r);
    var s' := Step(s, LoadEpoch(w));
    LoadLock(s, w, r);
    LoadSettled(s, w, r);
    SameWriters(s.init, s.order, Settled(s, r), s'.order, Settled(s', r), r);
    SameWriters(s.init, s.order, |s.order|, s'.order, |s'.order|, r);
  }

  lemma LoadEntry(s: State, w: nat, p: nat)
    requires Inv(s) && Enabled(s, LoadEpoch(w)) && p <= |s.order|
    ensures OInv(Step(s, LoadEpoch(w)), p)
  {
    assert WInv(s, w);
    var s' := Step(s, LoadEpoch(w));
    if p < |s.order| {
      assert OInv(s, p);
      var e := s.order[p];
      if e.status.Committed? {
        forall i | 0 <= i < |e.rset| ensures Fixed(s', p, e.rset[i]) {
          assert Fixed(s, p, e.rset[i]);
          FixedAgain(s, s', p, e.rset[i]);
        }
        forall m | 0 <= m < |e.wset|
            ensures Known(s'.init, s'.order, p, e.wset[m].r) == Known(s.init, s.order, p, e.wset[m].r) {
          SameWriters(s.init, s.order, p, s'.order, p, e.wset[m].r);
        }
      }
    } else {
      forall q | 0 <= q < p ensures s'.order[q].epoch <= s.ge {
        assert OInv(s, q);
      }
    }
  }

  lemma LoadKeeps(s: State, w: nat)
    requires Inv(s) && Enabled(s, LoadEpoch(w))
    ensures Inv(Step(s, LoadEpoch(w)))
  {
    var s' := Step(s, LoadEpoch(w));
    var k := s.workers[w];
    forall u | 0 <= u < |s.workers| && u != w ensures Rely(s, s', u) {
      assert WInv(s, w);
      forall r | Writes(k.wset, r) ensures r in s.recs && s.recs[r].owner == Own(w) {
        var m :| 0 <= m < |k.wset| && k.wset[m].r == r;
        assert Holds(k, m);
      }
      assert NewRely(s, s'.order[|s.order|], u);
      OrderRely(s, s', w, u);
    }
    LoadOwn(s, w);
    forall r | r in s.recs ensures RInv(s', r) { LoadRecord(s, w, r); }
    forall p | 0 <= p < |s'.order| ensures OInv(s', p) { LoadEntry(s, w, p); }
    OrderKeeps(s, s', w);
  }

  // ---------------------------------------------------------------- leaving validation aborted

  ghost predicate Fails(s: State, w: nat) {
    Inv(s) && Enabled(s, ValidateNext(w)) && !Passes(s, w)
  }

  /** Deciding the entry at `pos`, one way or the other. */
  ghost predicate Decides(s: State, s': State, w: nat) {
    && OrderStep(s, s', w) && InFlight(s.workers[w].phase) && WEntry(s, w) && |s'.order| == |s.order|
    && (var pos := s.workers[w].pos;
        && !s'.order[pos].status.Pending?
        && s'.order == s.order[pos := s.order[pos].(status := s'.order[pos].status, ver := s'.order[pos].ver)])
  }

  /** What was settled before the decision, outside the decided write set. */
  lemma DecidedPast(s: State, s': State, w: nat, n: nat, r: Rid)
    requires Inv(s) && Decides(s, s', w) && n <= |s.order|
    requires s'.order[s.workers[w].pos].status.Aborted? || n <= s.workers[w].pos || !Writes(s.workers[w].wset, r)
    ensures VerAt(s'.order, n, r) == VerAt(s.order, n, r)
    ensures ValAt(s'.init, s'.order, n, r) == ValAt(s.init, s.order, n, r)
    ensures Known(s'.init, s'.order, n, r) == Known(s.init, s.order, n, r)
  {
    SameWriters(s.init, s.order, n, s'.order, n, r);
  }

  /** Reads that were fixed stay fixed: a fixed read has no pending writer before it. */
  lemma DecidedFixed(s: State, s': State, w: nat, p: nat, e: RElem)
    requires Inv(s) && Decides(s, s', w) && p <= |s.order| && Fixed(s, p, e)
    ensures Fixed(s', p, e)
  {
    FixedAgain(s, s', p, e);
  }

  lemma DecidedKnown(s: State, s': State, w: nat, p: nat, r: Rid)
    requires Inv(s) && Decides(s, s', w) && p <= |s.order| && Known(s.init, s.order, p, r)
    ensures Known(s'.init, s'.order, p, r)
  {
    if r !in s.init {
      var q := LastWriter(s.order, p, r);
      KnownBy(s'.init, s'.order, p, q, r);
    }
  }

  lemma FailDecides(s: State, w: nat)
    requires Fails(s, w)
    ensures Decides(s, StepValidate(s, w), w)
  {
    assert WInv(s, w);
  }

  lemma FailOwn(s: State, w: nat)
    requires Fails(s, w)
    ensures WInv(StepValidate(s, w), w)
  {
    assert WInv(s, w);
    FailDecides(s, w);
    var s' := StepValidate(s, w);
    var k := s.workers[w];
    forall m | 0 <= m < |k.wset| ensures Holds(k, m) {
    }
    forall m | 0 <= m < |k.wset| && !k.wset[m].op.Insert? ensures Known(s'.init, s'.order, |s'.order|, k.wset[m].r) {
      assert Known(s.init, s.order, |s.order|, k.wset[m].r);
      DecidedKnown(s, s', w, |s.order|, k.wset[m].r);
    }
  }

  lemma FailRecord(s: State, w: nat, r: Rid)
    requires Fails(s, w) && r in s.recs
    ensures RInv(StepValidate(s, w), r)
  {
    assert RInv(s, r) && WInv(s, w);
    FailDecides(s, w);
    var s' := StepValidate(s, w);
    OrderDirt(s, s', w, r);
    if s.recs[r].owner == Own(w) {
      var m :| 0 <= m < |s.workers[w].wset| && Holds(s.workers[w], m) && s.workers[w].wset[m].r == r;
      StillHeld(s.workers[w], s'.workers[w], m);
    }
    DecidedPast(s, s', w, Settled(s, r), r);
    DecidedPast(s, s', w, |s.order|, r);
  }

  lemma FailEntry(s: State, w: nat, p: nat)
    requires Fails(s, w) && p < |s.order|
    ensures OInv(StepValidate(s, w), p)
  {
    assert OInv(s, p) && WInv(s, w);
    FailDecides(s, w);
    var s' := StepValidate(s, w);
    var e := s.order[p];
    if p != s.workers[w].pos && e.status.Committed? {
      forall i | 0 <= i < |e.rset| ensures Fixed(s', p, e.rset[i]) {
        assert Fixed(s, p, e.rset[i]);
        DecidedFixed(s, s', w, p, e.rset[i]);
      }
      forall m | 0 <= m < |e.wset|
          ensures Known(s'.init, s'.order, p, e.wset[m].r) == Known(s.init, s.order, p, e.wset[m].r) {
        DecidedPast(s, s', w, p, e.wset[m].r);
      }
    }
  }

  lemma FailKeeps(s: State, w: nat)
    requires Fails(s, w)
    ensures Inv(StepValidate(s, w))
  {
    FailDecides(s, w);
    var s' := StepValidate(s, w);
    forall u | 0 <= u < |s.workers| && u != w ensures Rely(s, s', u) {
      OrderRely(s, s', w, u);
    }
    FailOwn(s, w);
    forall r | r in s.recs ensures RInv(s', r) { FailRecord(s, w, r); }
    forall p | 0 <= p < |s'.order| ensures OInv(s', p) { FailEntry(s, w, p); }
    OrderKeeps(s, s', w);
  }

  // ---------------------------------------------------------------- leaving validation committed

  ghost predicate Commits(s: State, w: nat) {
    Inv(s) && Enabled(s, Commit(w))
  }

  /** The commit TID: in the loaded epoch, above everything locked or read, above the worker's last. */
  lemma CommitTid(s: State, w: nat)
    requires Commits(s, w)
    ensures var k, v := s.workers[w], StepCommit(s, w).workers[w].mrc;
            && v == CommitVer(k.maxr, k.maxw, k.mrc, k.local)
            && v.epoch == k.epoch && k.epoch >= 1
            && Below(k.maxr, v) && Below(k.maxw, v) && Below(k.mrc, v)
  {
    assert WInv(s, w);
    var k := s.workers[w];
    CommitVerExceeds(k.maxr, k.maxw, k.mrc, k.local);
  }

  lemma CommitDecides(s: State, w: nat)
    requires Commits(s, w)
    ensures Decides(s, StepCommit(s, w), w)
    ensures StepCommit(s, w).order[s.workers[w].pos].ver == StepCommit(s, w).workers[w].mrc
  {
    assert WInv(s, w);
  }

  /** The commit TID exceeds the version of every record in the write set, all of them held. */
  lemma CommitAbove(s: State, w: nat, r: Rid)
    requires Commits(s, w) && Writes(s.workers[w].wset, r)
    ensures r in s.recs && s.recs[r].owner == Own(w)
    ensures Below(s.recs[r].ver, StepCommit(s, w).workers[w].mrc)
  {
    assert WInv(s, w);
    CommitTid(s, w);
    var k := s.workers[w];
    var m :| 0 <= m < |k.wset| && k.wset[m].r == r;
    assert Holds(k, m);
    assert AtMost(s.recs[r].ver, k.maxw);
  }

  lemma CommitOwn(s: State, w: nat)
    requires Commits(s, w)
    ensures WInv(StepCommit(s, w), w)
  {
    assert WInv(s, w);
    CommitTid(s, w);
    CommitDecides(s, w);
    var s' := StepCommit(s, w);
    var k := s.workers[w];
    forall m | 0 <= m < |k.wset| ensures Holds(k, m) && Below(s.recs[k.wset[m].r].ver, s'.workers[w].mrc) {
      assert Writes(k.wset, k.wset[m].r);
      CommitAbove(s, w, k.wset[m].r);
    }
  }

  /** No live entry after this one writes what it writes. */
  lemma CommitAlone(s: State, w: nat, q: nat, r: Rid)
    requires Commits(s, w) && Writes(s.workers[w].wset, r)
    requires s.workers[w].pos < q < |s.order| && !s.order[q].status.Aborted?
    ensures !Writes(s.order[q].wset, r)
  {
    assert WInv(s, w);
    var k := s.workers[w];
    var m :| 0 <= m < |k.wset| && k.wset[m].r == r;
    assert Holds(k, m);
  }

  /** A record of the write set: it still shows what precedes the entry. */
  lemma CommitHeldRecord(s: State, w: nat, r: Rid)
    requires Commits(s, w) && r in s.recs && s.recs[r].owner == Own(w)
    ensures RInv(StepCommit(s, w), r)
  {
    assert RInv(s, r) && WInv(s, w);
    CommitDecides(s, w);
    var s', k := StepCommit(s, w), s.workers[w];
    OrderDirt(s, s', w, r);
    var m :| 0 <= m < |k.wset| && Holds(k, m) && k.wset[m].r == r;
    StillHeld(k, s'.workers[w], m);
    forall q | k.pos < q < |s.order| ensures !CommittedWriter(s.order[q], r) {
      if !s.order[q].status.Aborted? {
        CommitAlone(s, w, q, r);
      }
    }
    SameWriters(s.init, s.order, |s.order|, s'.order, k.pos, r);
    assert Settled(s', r) == k.pos && Settled(s, r) == |s.order|;
  }

  /** Any other record: the entry does not write it. */
  lemma CommitOtherRecord(s: State, w: nat, r: Rid)
    requires Commits(s, w) && r in s.recs && s.recs[r].owner != Own(w)
    ensures RInv(StepCommit(s, w), r)
  {
    assert RInv(s, r);
    CommitDecides(s, w);
    var s', k := StepCommit(s, w), s.workers[w];
    OrderDirt(s, s', w, r);
    assert !Writes(k.wset, r) by {
      if Writes(k.wset, r) {
        CommitAbove(s, w, r);
        assert false;
      }
    }
    DecidedPast(s, s', w, Settled(s, r), r);
    DecidedPast(s, s', w, |s.order|, r);
    assert Settled(s', r) == Settled(s, r);
  }

  /** Versions of `r` along the order never exceed the version at the end of it. */
  lemma VersionsGrow(s: State, q: nat, n: nat, r: Rid)
    requires Inv(s) && q < n <= |s.order| && CommittedWriter(s.order[q], r)
    ensures AtMost(s.order[q].ver, VerAt(s.order, n, r))
  {
    var p := LastWriter(s.order, n, r);
    assert p >= q;
    assert OInv(s, p);
  }

  lemma CommitReads(s: State, w: nat)
    requires Commits(s, w)
    ensures var s', k := StepCommit(s, w), s.workers[w];
            k.pos < |s.order| && forall i :: 0 <= i < |k.rset| ==>
                Fixed(s', k.pos, k.rset[i]) && Below(k.rset[i].ver, s'.workers[w].mrc)
  {
    CommitTid(s, w);
    CommitDecides(s, w);
    assert WInv(s, w);
    var s', k := StepCommit(s, w), s.workers[w];
    forall i | 0 <= i < |k.rset| ensures Fixed(s', k.pos, k.rset[i]) && Below(k.rset[i].ver, s'.workers[w].mrc) {
      assert Fixed(s, k.pos, k.rset[i]);
      DecidedFixed(s, s', w, k.pos, k.rset[i]);
    }
  }

  lemma CommitWrites(s: State, w: nat)
    requires Commits(s, w)
    ensures var s', k := StepCommit(s, w), s.workers[w];
            k.pos < |s.order| && forall m :: 0 <= m < |k.wset| ==>
              (Known(s'.init, s'.order, k.pos, k.wset[m].r) <==> !k.wset[m].op.Insert?)
  {
    CommitDecides(s, w);
    assert WInv(s, w);
    var s', k := StepCommit(s, w), s.workers[w];
    forall m | 0 <= m < |k.wset|
      ensures Known(s'.init, s'.order, k.pos, k.wset[m].r) <==> !k.wset[m].op.Insert?
    {
      DecidedPast(s, s', w, k.pos, k.wset[m].r);
      if k.wset[m].op.Insert? {
        InsertIsNew(s, w, m);
      }
    }
  }

  /** The new version is above every earlier committed version of the same record or worker. */
  lemma CommitVersions(s: State, w: nat, q: nat)
    requires Commits(s, w) && s.workers[w].pos < |s.order| && q < s.workers[w].pos && s.order[q].status.Committed?
    ensures s.order[q].w == w ==> Below(s.order[q].ver, StepCommit(s, w).workers[w].mrc)
    ensures forall r :: Writes(s.order[q].wset, r) && Writes(s.workers[w].wset, r) ==>
          Below(s.order[q].ver, StepCommit(s, w).workers[w].mrc)
  {
    CommitTid(s, w);
    assert OInv(s, q);
    forall r | Writes(s.order[q].wset, r) && Writes(s.workers[w].wset, r)
      ensures Below(s.order[q].ver, StepCommit(s, w).workers[w].mrc)
    {
      CommitAbove(s, w, r);
      assert WInv(s, w) && RInv(s, r);
      VersionsGrow(s, q, |s.order|, r);
    }
  }

  /** The committed entry itself. */
  lemma CommitNewEntry(s: State, w: nat)
    requires Commits(s, w) && s.workers[w].pos < |s.order|
    ensures OInv(StepCommit(s, w), s.workers[w].pos)
  {
    CommitTid(s, w);
    CommitDecides(s, w);
    CommitReads(s, w);
    CommitWrites(s, w);
    var s', k := StepCommit(s, w), s.workers[w];
    assert WInv(s, w) && OInv(s, k.pos);
    forall q | 0 <= q < k.pos && s.order[q].status.Committed?
      ensures s.order[q].w == w ==> Below(s.order[q].ver, s'.workers[w].mrc)
      ensures forall r :: Writes(s.order[q].wset, r) && Writes(k.wset, r) ==> Below(s.order[q].ver, s'.workers[w].mrc)
    {
      CommitVersions(s, w, q);
    }
  }

  /** What an insert reserved did not exist before it in the serial order. */
  lemma InsertIsNew(s: State, w: nat, m: nat)
    requires Commits(s, w) && m < |s.workers[w].wset| && s.workers[w].wset[m].op.Insert?
    ensures s.workers[w].pos < |s.order| && !Known(s.init, s.order, s.workers[w].pos, s.workers[w].wset[m].r)
  {
    assert WInv(s, w);
    var k := s.workers[w];
    var r := k.wset[m].r;
    var i :| 0 <= i < |k.rset| && k.rset[i] == RElem(r, ZERO, None);
    assert Fixed(s, k.pos, k.rset[i]);
    forall q | 0 <= q < k.pos && s.order[q].status.Committed? ensures s.order[q].ver != ZERO {
      assert OInv(s, q);
    }
  }

  lemma CommitEntry(s: State, w: nat, p: nat)
    requires Commits(s, w) && p < |s.order|
    ensures OInv(StepCommit(s, w), p)
  {
    CommitTid(s, w);
    CommitDecides(s, w);
    var s', k := StepCommit(s, w), s.workers[w];
    assert OInv(s, p) && WInv(s, w);
    var e := s.order[p];
    if p == k.pos {
      CommitNewEntry(s, w);
    } else if e.status.Committed? {
      forall i | 0 <= i < |e.rset| ensures Fixed(s', p, e.rset[i]) {
        assert Fixed(s, p, e.rset[i]);
        DecidedFixed(s, s', w, p, e.rset[i]);
      }
      CommitOldWrites(s, w, p);
      forall q, r | 0 <= q < p && CommittedWriter(s'.order[q], r) && CommittedWriter(e, r)
          ensures Below(s'.order[q].ver, e.ver) {
        if q == k.pos {
          CommitAlone(s, w, p, r);
          assert false;
        }
      }
    }
  }

  lemma CommitOldWrites(s: State, w: nat, p: nat)
    requires Commits(s, w) && p < |s.order| && s.order[p].status.Committed? && OInv(s, p)
    requires Decides(s, StepCommit(s, w), w)
    ensures forall m :: 0 <= m < |s.order[p].wset| ==>
              Known(s.init, StepCommit(s, w).order, p, s.order[p].wset[m].r)
                  == Known(s.init, s.order, p, s.order[p].wset[m].r)
  {
    var s', k, e := StepCommit(s, w), s.workers[w], s.order[p];
    forall m | 0 <= m < |e.wset|
        ensures Known(s.init, s'.order, p, e.wset[m].r) == Known(s.init, s.order, p, e.wset[m].r) {
      if k.pos < p {
        assert Writes(e.wset, e.wset[m].r);
        if Writes(k.wset, e.wset[m].r) {
          CommitAlone(s, w, p, e.wset[m].r);
          assert false;
        }
      }
      DecidedPast(s, s', w, p, e.wset[m].r);
    }
  }

  lemma CommitKeeps(s: State, w: nat)
    requires Commits(s, w)
    ensures Inv(StepCommit(s, w))
  {
    CommitDecides(s, w);
    var s', k := StepCommit(s, w), s.workers[w];
    forall r | Writes(k.wset, r) ensures r in s.recs && Below(s.recs[r].ver, s'.workers[w].mrc) {
      CommitAbove(s, w, r);
    }
    forall u | 0 <= u < |s.workers| && u != w ensures Rely(s, s', u) {
      OrderRely(s, s', w, u);
    }
    CommitOwn(s, w);
    forall r | r in s.recs ensures RInv(s', r) {
      if s.recs[r].owner == Own(w) {
        CommitHeldRecord(s, w, r);
      } else {
        CommitOtherRecord(s, w, r);
      }
    }
    forall p | 0 <= p < |s'.order| ensures OInv(s', p) { CommitEntry(s, w, p); }
    OrderKeeps(s, s', w);
  }
}
