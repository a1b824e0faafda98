/**
  Which TID a transaction gets: the least one that the protocol's bounds allow, over whole runs
  (server/enclave/silo_cc/silo_transaction.cpp, writePhase).
 */
module SiloTids {
  import opened Base
  import opened Tid
  import opened Silo
  import opened SiloInv
  import opened SiloTheorems
  import PW = PipeWork
  import SiloEpoch

  // ---------------------------------------------------------------- where the three maxima come from

  /** A version that a committed transaction gave to a record of this write set. */
  ghost predicate Overwritten(order: seq<Entry>, ws: seq<WElem>, v: Ver) {
    v == ZERO || exists q, r :: 0 <= q < |order| && CommittedWriter(order[q], r) && Writes(ws, r) && order[q].ver == v
  }

  /** A version read. */
  ghost predicate Seen(rs: seq<RElem>, v: Ver) { v == ZERO || exists i :: 0 <= i < |rs| && rs[i].ver == v }

  /** The TID of a transaction of worker `w`. */
  ghost predicate Chose(order: seq<Entry>, w: nat, v: Ver) {
    v == ZERO || exists q :: 0 <= q < |order| && order[q].w == w && order[q].status.Committed? && order[q].ver == v
  }

  /** The maxima of a worker that is to choose a TID. */
  ghost predicate Maxima(s: State, w: nat)
    requires w < |s.workers|
  {
    var k := s.workers[w];
    && (Open(k.phase) ==> Seen(k.rset, k.maxr) && Overwritten(s.order, k.wset, k.maxw))
    && (Open(k.phase) && !InFlight(k.phase) ==> k.maxr == ZERO)
    && (k.phase.Exec? || k.phase.Checking? || k.phase.Fetching? ==> k.maxw == ZERO)
    && Chose(s.order, w, k.mrc)
  }

  // ---------------------------------------------------------------- one entry

  /** `v` meets every bound on the TID of entry `p`. */
  ghost predicate Allowed(o: seq<Entry>, p: nat, v: Ver)
    requires p < |o|
  {
    && v.epoch == o[p].epoch
    && (forall i :: 0 <= i < |o[p].rset| ==> Below(o[p].rset[i].ver, v))
    && (forall q :: 0 <= q < p && o[q].status.Committed? && o[q].w == o[p].w ==> Below(o[q].ver, v))
    && (forall q, r :: 0 <= q < p && CommittedWriter(o[q], r) && Writes(o[p].wset, r) ==> Below(o[q].ver, v))
  }

  ghost predicate IsLeast(o: seq<Entry>, p: nat)
    requires p < |o|
  {
    o[p].status.Committed? ==> forall v :: Allowed(o, p, v) ==> AtMost(o[p].ver, v)
  }

  ghost predicate TidsOk(s: State) {
    (forall w :: 0 <= w < |s.workers| ==> Maxima(s, w)) && forall p :: 0 <= p < |s.order| ==> IsLeast(s.order, p)
  }

  // ---------------------------------------------------------------- steps

  /** Committed entries stay, and what the others read and write does. */
  ghost predicate Grows(o: seq<Entry>, o': seq<Entry>) {
    && |o| <= |o'|
    && (forall p :: 0 <= p < |o| ==>
          && o'[p].w == o[p].w && o'[p].rset == o[p].rset && o'[p].wset == o[p].wset && o'[p].epoch == o[p].epoch
          && (o[p].status.Committed? ==> o'[p] == o[p]))
  }

  lemma OrderGrows(s: State, e: Event)
    requires Inv(s) && Enabled(s, e)
    ensures Grows(s.order, Step(s, e).order)
    ensures forall p :: 0 <= p < |Step(s, e).order| && Step(s, e).order[p].status.Committed?
                        ==> (p < |s.order| && s.order[p].status.Committed?) || (e.Commit? && p == s.workers[e.w].pos)
  {
    assert WInv(s, e.w);
    PW.StepOrder(s, e);
  }

  lemma StillOverwritten(o: seq<Entry>, o': seq<Entry>, ws: seq<WElem>, v: Ver)
    requires Grows(o, o') && Overwritten(o, ws, v)
    ensures Overwritten(o', ws, v)
  {
    if v != ZERO {
      var q, r :| 0 <= q < |o| && CommittedWriter(o[q], r) && Writes(ws, r) && o[q].ver == v;
      assert CommittedWriter(o'[q], r);
    }
  }

  lemma StillChose(o: seq<Entry>, o': seq<Entry>, w: nat, v: Ver)
    requires Grows(o, o') && Chose(o, w, v)
    ensures Chose(o', w, v)
  {
    if v != ZERO {
      var q :| 0 <= q < |o| && o[q].w == w && o[q].status.Committed? && o[q].ver == v;
      assert o'[q].ver == v;
    }
  }

  lemma OthersMaxima(s: State, e: Event, u: nat)
    requires Inv(s) && Enabled(s, e) && u < |s.workers| && u != e.w && Maxima(s, u)
    ensures u < |Step(s, e).workers| && Maxima(Step(s, e), u)
  {
    OrderGrows(s, e);
    SiloEpoch.OthersKept(s, e);
    var k := s.workers[u];
    StillChose(s.order, Step(s, e).order, u, k.mrc);
    if Open(k.phase) { StillOverwritten(s.order, Step(s, e).order, k.wset, k.maxw); }
  }

  lemma SeenMore(rs: seq<RElem>, rs': seq<RElem>, v: Ver)
    requires rs <= rs' && Seen(rs, v)
    ensures Seen(rs', v)
  {
    if v != ZERO {
      var i :| 0 <= i < |rs| && rs[i].ver == v;
      assert rs'[i].ver == v;
    }
  }

  /** Locking a record takes a version that a committed transaction gave it. */
  lemma LockMaxima(s: State, w: nat)
    requires Inv(s) && Enabled(s, LockNext(w)) && Maxima(s, w)
    ensures w < |StepLock(s, w).workers| && Maxima(StepLock(s, w), w)
  {
    var k, s' := s.workers[w], StepLock(s, w);
    if k.phase.i < |k.wset| {
      var r := k.wset[k.phase.i].r;
      assert RInv(s, r) && Writes(k.wset, r);
      var q := LastWriter(s.order, Settled(s, r), r);
      if q >= 0 { assert CommittedWriter(s.order[q], r) && s.recs[r].ver == s.order[q].ver; }
      assert Overwritten(s.order, k.wset, s.recs[r].ver);
    }
  }

  lemma ValidateMaxima(s: State, w: nat)
    requires Inv(s) && Enabled(s, ValidateNext(w)) && Maxima(s, w)
    ensures w < |StepValidate(s, w).workers| && Maxima(StepValidate(s, w), w)
  {
    OrderGrows(s, ValidateNext(w));
    var k, o' := s.workers[w], StepValidate(s, w).order;
    StillChose(s.order, o', w, k.mrc);
    StillOverwritten(s.order, o', k.wset, k.maxw);
    assert Seen(k.rset, k.rset[k.phase.j].ver);
  }

  lemma CommitMaxima(s: State, w: nat)
    requires Inv(s) && Enabled(s, Commit(w)) && Maxima(s, w)
    ensures w < |StepCommit(s, w).workers| && Maxima(StepCommit(s, w), w)
  {
    assert WInv(s, w);
    var s', pos := StepCommit(s, w), s.workers[w].pos;
    assert s'.order[pos].w == w && s'.order[pos].ver == s'.workers[w].mrc;
  }

  lemma QuietMaxima(s: State, e: Event)
    requires Inv(s) && Enabled(s, e) && Maxima(s, e.w) && !e.LockNext? && !e.ValidateNext? && !e.Commit?
    ensures e.w < |Step(s, e).workers| && Maxima(Step(s, e), e.w)
  {
    OrderGrows(s, e);
    var k, s' := s.workers[e.w], Step(s, e);
    StillChose(s.order, s'.order, e.w, k.mrc);
    if e.LoadEpoch? { StillOverwritten(s.order, s'.order, k.wset, k.maxw); }
    QuietMoves(s, e);
    hide Inv, Step, Enabled, Chose, Grows;
  }

  /** The other steps leave the maxima alone, or reset them at the begin of a transaction. */
  lemma QuietMoves(s: State, e: Event)
    requires Enabled(s, e) && !e.LockNext? && !e.ValidateNext? && !e.Commit?
    ensures e.w < |Step(s, e).workers|
    ensures var k, k' := s.workers[e.w], Step(s, e).workers[e.w];
            && k'.mrc == k.mrc
            && (if e.Begin? then k'.maxr == k'.maxw == ZERO && k'.phase.Exec?
                else k'.maxr == k.maxr && k'.maxw == k.maxw)
            && (Open(k'.phase) && !e.Begin? ==> Open(k.phase) && (InFlight(k.phase) ==> InFlight(k'.phase)))
            && (InFlight(k'.phase) ==> k'.rset == k.rset && k'.wset == k.wset && (InFlight(k.phase) || k.phase.Locked?))
            && (k'.phase.Locking? || k'.phase.Locked? ==> k.phase.Exec? && k'.wset == k.wset)
            && (k'.phase.Exec? || k'.phase.Checking? || k'.phase.Fetching? ==>
                e.Begin? || k.phase.Exec? || k.phase.Checking? || k.phase.Fetching?)
  {
  }

  lemma MaximaKept(s: State, e: Event, u: nat)
    requires Inv(s) && Enabled(s, e) && u < |s.workers| && Maxima(s, u)
    ensures u < |Step(s, e).workers| && Maxima(Step(s, e), u)
  {
    hide Maxima, Inv;
    if u != e.w {
      OthersMaxima(s, e, u);
    } else if e.LockNext? {
      LockMaxima(s, u);
    } else if e.ValidateNext? {
      ValidateMaxima(s, u);
    } else if e.Commit? {
      CommitMaxima(s, u);
    } else {
      QuietMaxima(s, e);
    }
  }

  /** A committed entry's TID stays the least: later commits only add bounds. */
  lemma StillLeast(o: seq<Entry>, o': seq<Entry>, p: nat)
    requires Grows(o, o') && p < |o| && o[p].status.Committed? && IsLeast(o, p)
    ensures IsLeast(o', p)
  {
    forall v | Allowed(o', p, v) ensures AtMost(o'[p].ver, v) {
      forall q, r | 0 <= q < p && CommittedWriter(o[q], r) && Writes(o[p].wset, r) ensures Below(o[q].ver, v) {
        assert CommittedWriter(o'[q], r);
      }
      assert Allowed(o, p, v);
    }
  }

  lemma ReadBound(o: seq<Entry>, p: nat, v: Ver, maxr: Ver)
    requires p < |o| && Allowed(o, p, v) && v.epoch >= 1 && Seen(o[p].rset, maxr)
    ensures Below(maxr, v)
  {
    if maxr != ZERO {
      var i :| 0 <= i < |o[p].rset| && o[p].rset[i].ver == maxr;
    }
  }

  lemma OwnBound(o: seq<Entry>, p: nat, v: Ver, mrc: Ver)
    requires p < |o| && Allowed(o, p, v) && v.epoch >= 1 && Chose(o, o[p].w, mrc)
    requires !o[p].status.Committed? && forall q :: p < q < |o| ==> o[q].w != o[p].w
    ensures Below(mrc, v)
  {
    if mrc != ZERO {
      var q :| 0 <= q < |o| && o[q].w == o[p].w && o[q].status.Committed? && o[q].ver == mrc;
    }
  }

  lemma WriteBound(o: seq<Entry>, p: nat, v: Ver, maxw: Ver)
    requires p < |o| && Allowed(o, p, v) && v.epoch >= 1 && Overwritten(o, o[p].wset, maxw) && !o[p].status.Committed?
    requires forall q, r :: p < q < |o| && CommittedWriter(o[q], r) ==> !Writes(o[p].wset, r)
    ensures Below(maxw, v)
  {
    if maxw != ZERO {
      var q, r :| 0 <= q < |o| && CommittedWriter(o[q], r) && Writes(o[p].wset, r) && o[q].ver == maxw;
    }
  }

  /** Nobody after it in the order has written what it holds. */
  lemma NoLaterWriter(s: State, w: nat, q: nat, r: Rid)
    requires w < |s.workers| && WInv(s, w) && s.workers[w].phase.Validating? && s.workers[w].pos < q < |s.order|
    requires CommittedWriter(s.order[q], r)
    ensures !Writes(s.workers[w].wset, r)
  {
    var k := s.workers[w];
    forall m | 0 <= m < |k.wset| ensures k.wset[m].r != r {
      assert Holds(k, m);
    }
  }

  /** Everything the three maxima stand for bounds the TID of the entry. */
  lemma MaximaBound(s: State, w: nat, v: Ver)
    requires Inv(s) && Enabled(s, Commit(w)) && Maxima(s, w) && Allowed(s.order, s.workers[w].pos, v)
    ensures var k := s.workers[w]; Below(k.maxr, v) && Below(k.maxw, v) && Below(k.mrc, v) && v.epoch == k.local
  {
    var k, o := s.workers[w], s.order;
    assert WInv(s, w) && WEntry(s, w);
    forall q, r | k.pos < q < |o| && CommittedWriter(o[q], r) ensures !Writes(k.wset, r) {
      NoLaterWriter(s, w, q, r);
    }
    AllowedEpoch(o, k.pos, v);
    hide Inv, WInv, Allowed, Seen, Chose, Overwritten;
    ReadBound(o, k.pos, v, k.maxr);
    OwnBound(o, k.pos, v, k.mrc);
    WriteBound(o, k.pos, v, k.maxw);
  }

  lemma AllowedEpoch(o: seq<Entry>, p: nat, v: Ver)
    requires p < |o| && Allowed(o, p, v)
    ensures v.epoch == o[p].epoch
  {
  }

  lemma CommitLeast(s: State, w: nat)
    requires Inv(s) && Enabled(s, Commit(w)) && Maxima(s, w)
    ensures s.workers[w].pos < |StepCommit(s, w).order| && IsLeast(StepCommit(s, w).order, s.workers[w].pos)
  {
    var k, o, o' := s.workers[w], s.order, StepCommit(s, w).order;
    assert WInv(s, w);
    forall v | Allowed(o', k.pos, v) ensures AtMost(o'[k.pos].ver, v) {
      assert forall q :: 0 <= q < k.pos ==> o'[q] == o[q];
      assert Allowed(o, k.pos, v);
      MaximaBound(s, w, v);
      CommitVerIsLeast(k.maxr, k.maxw, k.mrc, k.local, v);
    }
  }

  lemma TidsKeep(s: State, e: Event)
    requires Inv(s) && Enabled(s, e) && TidsOk(s)
    ensures TidsOk(Step(s, e))
  {
    var s' := Step(s, e);
    OrderGrows(s, e);
    SiloEpoch.OthersKept(s, e);
    hide Inv, Maxima, IsLeast, Grows, Step, Enabled;
    forall u | 0 <= u < |s'.workers| ensures Maxima(s', u) {
      MaximaKept(s, e, u);
    }
    forall p | 0 <= p < |s'.order| ensures IsLeast(s'.order, p) {
      LeastKept(s, e, p);
    }
  }

  lemma LeastKept(s: State, e: Event, p: nat)
    requires Inv(s) && Enabled(s, e) && TidsOk(s) && p < |Step(s, e).order|
    ensures IsLeast(Step(s, e).order, p)
  {
    OrderGrows(s, e);
    hide Inv, Maxima, Grows, Allowed;
    if p < |s.order| && s.order[p].status.Committed? {
      StillLeast(s.order, Step(s, e).order, p);
    } else if e.Commit? && p == s.workers[e.w].pos {
      CommitLeast(s, e.w);
    }
  }

  lemma {:induction false} TidsAlways(s0: State, run: seq<Event>)
    requires Initial(s0) && After(s0, run).Some?
    ensures TidsOk(After(s0, run).value)
  {
    if run != [] {
      TidsAlways(s0, run[..|run| - 1]);
      Always(s0, run[..|run| - 1]);
      TidsKeep(After(s0, run[..|run| - 1]).value, run[|run| - 1]);
    }
  }

  /**
    The commit TID is the least version of the transaction's epoch above every version it read, above its
    worker's earlier TIDs and above every earlier committed version of the records it writes.
   */
  lemma CommitTidIsLeast(s0: State, run: seq<Event>, p: nat, v: Ver)
    requires Initial(s0) && After(s0, run).Some?
    requires var o := After(s0, run).value.order;
             p < |o| && o[p].status.Committed?
    ensures var o := After(s0, run).value.order;
            Allowed(o, p, o[p].ver) && (Allowed(o, p, v) ==> AtMost(o[p].ver, v))
  {
    TidsAlways(s0, run);
    CommitTidsGrow(s0, run, p);
    EpochsRespectOrder(s0, run, p, p);
    var o := After(s0, run).value.order;
    assert IsLeast(o, p);
    forall q, r | 0 <= q < p && CommittedWriter(o[q], r) && Writes(o[p].wset, r) ensures Below(o[q].ver, o[p].ver) {
      assert CommittedWriter(o[p], r);
    }
  }
}
