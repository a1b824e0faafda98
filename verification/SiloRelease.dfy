/**
  What a failed transaction leaves behind: every record it locked as it found it, and for ever locked only
  records that no committed transaction has ever written (server/enclave/silo_cc/silo_transaction.cpp,
  unlockWriteSet and abort).
 */
module SiloRelease {
  import opened Base
  import opened Tid
  import opened Silo
  import opened SiloInv
  import opened SiloEpoch
  import opened SiloTheorems
  import C = SiloClient

  /** Worker `k`'s step is about the write-set element of record `r`. */
  predicate Targets(k: Worker, e: Event, r: Rid) {
    && (if e.LockNext? then k.phase.Locking? else if e.InstallNext? then k.phase.Installing?
        else if e.UnlockNext? then k.phase.Unlocking? && k.phase.i < k.phase.n else e.DropNext? && k.phase.Dropping?)
    && k.phase.i < |k.wset| && k.wset[k.phase.i].r == r
  }

  /** The only steps that touch a record that is there, and how those that do not install do. */
  lemma RecMoves(s: State, e: Event, r: Rid)
    requires Enabled(s, e) && r in s.recs
    ensures e.w < |s.workers| && r in Step(s, e).recs
    ensures var k, a, b := s.workers[e.w], s.recs[r], Step(s, e).recs[r];
            && (!Targets(k, e, r) ==> b == a)
            && (e.InstallNext? ==> b.owner.Free? || b.owner == a.owner)
            && (Targets(k, e, r) && !e.InstallNext? ==>
                var el := k.wset[k.phase.i];
                if e.DropNext? then b == if el.op.Insert? then a.(owner := Orphan) else a
                else if el.op.Insert? then b == a
                else if e.LockNext? then b == if a.lock then a else a.(lock := true, owner := Own(e.w))
                else b == a.(lock := false, owner := Free))
  {
  }

  // ---------------------------------------------------------------- abandoned records

  /** No committed transaction has written `r`, and it was not there at the start. */
  ghost predicate Unwritten(s: State, r: Rid) {
    r !in s.init && forall p :: 0 <= p < |s.order| ==> !CommittedWriter(s.order[p], r)
  }

  predicate Inserts(k: Worker, r: Rid) { exists m :: 0 <= m < |k.wset| && k.wset[m].r == r && k.wset[m].op.Insert? }

  /** `r` is abandoned, or reserved by an insert whose transaction has not committed. */
  ghost predicate Unborn(s: State, r: Rid)
    requires r in s.recs
  {
    var o := s.recs[r].owner;
    o.Orphan? || (o.Own? && o.w < |s.workers| && !Chosen(s.workers[o.w].phase) && Inserts(s.workers[o.w], r))
  }

  ghost predicate UnbornOk(s: State) { forall r :: r in s.recs && Unborn(s, r) ==> Unwritten(s, r) }

  /** Only a commit makes a writer, and only of what it holds. */
  lemma WriterMoves(s: State, e: Event, r: Rid)
    requires Inv(s) && Enabled(s, e) && Unwritten(s, r)
    ensures Step(s, e).init == s.init && e.w < |s.workers|
    ensures Unwritten(Step(s, e), r) || (e.Commit? && Writes(s.workers[e.w].wset, r))
  {
    C.OrderMoves(s, e);
    StepFrame(s, e);
    if e.Commit? { assert WInv(s, e.w); }
    hide Step, Enabled, Inv;
  }

  /** A new record is unwritten. */
  lemma NewIsUnwritten(s: State, r: Rid)
    requires Inv(s) && r !in s.recs
    ensures Unwritten(s, r)
  {
    forall p | 0 <= p < |s.order| ensures !CommittedWriter(s.order[p], r) {
      assert OInv(s, p);
    }
  }

  lemma ChosenMoves(s: State, e: Event)
    requires Enabled(s, e)
    ensures e.w < |s.workers| == |Step(s, e).workers|
    ensures Chosen(s.workers[e.w].phase) ==>
          Chosen(Step(s, e).workers[e.w].phase) || Resting(Step(s, e).workers[e.w].phase)
  {
  }

  /** How a worker's phase and insertions move. */
  lemma InsertsMove(s: State, e: Event, r: Rid)
    requires Enabled(s, e) && r in s.recs
    ensures e.w < |s.workers| == |Step(s, e).workers|
    ensures var k, k' := s.workers[e.w], Step(s, e).workers[e.w];
            Inserts(k', r) && !Resting(k'.phase) && !Chosen(k'.phase) ==> Inserts(k, r) && !Chosen(k.phase)
  {
    ChosenMoves(s, e);
    var grows := e.Begin? || e.ReadBody? || e.AddInsert? || e.AddWrite?;
    if grows { C.SetsGrow(s, e); } else { C.SetsStay(s, e); }
    assert e.AddInsert? ==> e.r != r;
    if e.AddWrite? { AddWriteOp(s, e); }
    hide Step, Enabled;
    var k, k' := s.workers[e.w], Step(s, e).workers[e.w];
    if Inserts(k', r) && !Resting(k'.phase) {
      var m :| 0 <= m < |k'.wset| && k'.wset[m].r == r && k'.wset[m].op.Insert?;
      assert m < |k.wset| && k.wset[m] == k'.wset[m];
    }
  }

  lemma AddWriteOp(s: State, e: Event)
    requires Enabled(s, e) && e.AddWrite?
    ensures !e.op.Insert?
  {
  }

  /** An abandoned or reserved record was that before the step. */
  lemma UnbornWas(s: State, e: Event, r: Rid)
    requires Inv(s) && Enabled(s, e) && Inv(Step(s, e)) && r in s.recs && r in Step(s, e).recs && Unborn(Step(s, e), r)
    ensures Unborn(s, r)
  {
    var s', k := Step(s, e), s.workers[e.w];
    RecMoves(s, e, r);
    InsertsMove(s, e, r);
    OthersKept(s, e);
    assert RInv(s', r);
    assert Targets(k, e, r) ==> TargetIs(s, e, r) by { if Targets(k, e, r) { TargetHolds(s, e, r); } }
    hide Step, Enabled, Inv, RVal, Settled;
  }

  /**
    A record that is released or dropped is held; one that is locked is no insertion; one that is installed
    is chosen.
   */
  ghost predicate TargetIs(s: State, e: Event, r: Rid)
    requires e.w < |s.workers| && r in s.recs
  {
    var k := s.workers[e.w];
    && (e.DropNext? && Inserts(k, r) ==> s.recs[r].owner == Own(e.w))
    && (e.LockNext? && !s.recs[r].lock ==> s.recs[r].owner.Free?)
    && (e.LockNext? && k.phase.Locking? && k.phase.i < |k.wset| && !k.wset[k.phase.i].op.Insert? ==> !Inserts(k, r))
    && (e.InstallNext? ==> s.recs[r].owner == Own(e.w))
  }

  lemma TargetHolds(s: State, e: Event, r: Rid)
    requires Inv(s) && Enabled(s, e) && r in s.recs && Targets(s.workers[e.w], e, r)
    ensures TargetIs(s, e, r)
  {
    var k := s.workers[e.w];
    assert WInv(s, e.w) && RInv(s, r);
    if e.DropNext? && Inserts(k, r) {
      var m :| 0 <= m < |k.wset| && k.wset[m].r == r && k.wset[m].op.Insert?;
      assert m == k.phase.i && Holds(k, m);
    }
    if e.InstallNext? { assert Holds(k, k.phase.i); }
  }

  lemma UnbornStep(s: State, e: Event)
    requires Inv(s) && Enabled(s, e) && Inv(Step(s, e)) && UnbornOk(s)
    ensures UnbornOk(Step(s, e))
  {
    var s' := Step(s, e);
    forall r | r in s'.recs && Unborn(s', r) ensures Unwritten(s', r) {
      if r in s.recs { UnbornWas(s, e, r); } else { NewIsUnwritten(s, r); }
      WriterMoves(s, e, r);
      if e.Commit? && Writes(s.workers[e.w].wset, r) { CommitIsChosen(s, e.w, r); }
    }
  }

  /** What a committing worker writes it holds, and from then on its records are chosen. */
  lemma CommitIsChosen(s: State, w: nat, r: Rid)
    requires Inv(s) && Enabled(s, Commit(w)) && Writes(s.workers[w].wset, r)
    ensures r in Step(s, Commit(w)).recs && !Unborn(Step(s, Commit(w)), r)
  {
    assert WInv(s, w);
    var k := s.workers[w];
    var m :| 0 <= m < |k.wset| && k.wset[m].r == r;
    assert Holds(k, m);
  }

  lemma {:induction false} UnbornAlways(s0: State, run: seq<Event>)
    requires Initial(s0) && After(s0, run).Some?
    ensures UnbornOk(After(s0, run).value)
  {
    if run != [] {
      var rest := run[..|run| - 1];
      UnbornAlways(s0, rest);
      Always(s0, rest);
      Always(s0, run);
      hide Inv, UnbornOk, Initial;
      UnbornStep(After(s0, rest).value, run[|run| - 1]);
    }
  }

  /**
    Only an insert that never committed leaves a record locked for ever: in every reachable state such a
    record was not there at the start and no committed transaction has written it.
   */
  lemma OrphansAreUnwritten(s0: State, run: seq<Event>, r: Rid)
    requires Initial(s0) && After(s0, run).Some?
    requires r in After(s0, run).value.recs && After(s0, run).value.recs[r].owner.Orphan?
    ensures var s := After(s0, run).value; r !in s0.init && LastWriter(s.order, |s.order|, r) < 0
  {
    UnbornAlways(s0, run);
    InitKept(s0, run);
    assert Unborn(After(s0, run).value, r);
  }

  // ---------------------------------------------------------------- what a failed transaction locked

  /** Worker `w` still holds `r`, not as an insertion, and it is as `rec` was but for the lock. */
  ghost predicate Kept(s: State, w: nat, r: Rid, rec: Rec) {
    && w < |s.workers| && r in s.recs && s.recs[r] == rec.(lock := true, owner := Own(w))
    && var k := s.workers[w];
       && (k.phase.Locking? || k.phase.Locked? || InFlight(k.phase) || k.phase.Unlocking?)
       && exists m :: 0 <= m < |k.wset| && Holds(k, m) && k.wset[m].r == r && !k.wset[m].op.Insert?
  }

  /** It has committed since, or is out of the transaction. */
  predicate Through(ph: Phase) { Chosen(ph) || Resting(ph) }

  /** Somebody else's step leaves it alone. */
  lemma KeptByOthers(s: State, e: Event, w: nat, r: Rid, rec: Rec)
    requires Inv(s) && Enabled(s, e) && Kept(s, w, r, rec) && e.w != w
    ensures Kept(Step(s, e), w, r, rec)
  {
    RecMoves(s, e, r);
    OthersKept(s, e);
    assert WInv(s, e.w) && WInv(s, w);
    var k := s.workers[e.w];
    if Targets(k, e, r) {
      assert Holds(k, k.phase.i) || e.LockNext? || !k.wset[k.phase.i].op.Insert?;
    }
    hide Step, Enabled;
  }

  /** How a worker goes from its locks to their release. */
  lemma PhaseMoves(s: State, e: Event)
    requires Enabled(s, e)
    ensures e.w < |s.workers| == |Step(s, e).workers|
    ensures var k, k' := s.workers[e.w], Step(s, e).workers[e.w];
            var ph, ph' := k.phase, k'.phase;
            && (ph.Locking? || ph.Locked? || InFlight(ph) || ph.Unlocking? ==> k'.wset == k.wset)
            && (ph.Locking? ==> ph' == Locking(ph.i + 1) || ph'.Locked? || ph' == Unlocking(0, ph.i))
            && (ph.Locked? ==> ph'.Loaded?) && (ph.Loaded? ==> ph'.Validating?)
            && (ph.Validating? ==> ph'.Validating? || ph'.Logging? || ph' == Unlocking(0, |k.wset|))
            && (ph.Unlocking? ==> e.UnlockNext? && (if ph.i < ph.n then ph' == Unlocking(ph.i + 1, ph.n)
                else ph' == Dropping(0)))
  {
  }

  /** Its own next step keeps it, takes the transaction through, or puts it back as it was. */
  lemma KeptByItself(s: State, e: Event, r: Rid, rec: Rec)
    requires Inv(s) && Enabled(s, e) && Kept(s, e.w, r, rec) && !rec.lock && rec.owner.Free?
    ensures e.w < |Step(s, e).workers| && r in Step(s, e).recs
    ensures || Kept(Step(s, e), e.w, r, rec) || Through(Step(s, e).workers[e.w].phase)
            || (e.UnlockNext? && Step(s, e).recs[r] == rec)
  {
    var k, k' := s.workers[e.w], Step(s, e).workers[e.w];
    assert WInv(s, e.w);
    assert WShape(k);
    RecMoves(s, e, r);
    PhaseMoves(s, e);
    hide Step, Enabled, Inv, WInv;
    var m :| 0 <= m < |k.wset| && Holds(k, m) && k.wset[m].r == r && !k.wset[m].op.Insert?;
    assert Holds(k', m) || Through(k'.phase) || Targets(k, e, r);
  }

  lemma ThroughStays(s: State, e: Event, w: nat)
    requires Enabled(s, e) && w < |s.workers| && Through(s.workers[w].phase) && e != Begin(w)
    ensures w < |Step(s, e).workers| && Through(Step(s, e).workers[w].phase)
  {
    OthersKept(s, e);
  }

  /** Event `a` of the run is worker `w` taking the lock of record `r`, which it found free. */
  ghost predicate Takes(s0: State, run: seq<Event>, a: nat, w: nat, r: Rid) {
    && a < |run| && run[a] == LockNext(w) && After(s0, run[..a]).Some?
    && var s := After(s0, run[..a]).value;
       w < |s.workers| && r in s.recs && !s.recs[r].lock && Targets(s.workers[w], run[a], r)
       && !s.workers[w].wset[s.workers[w].phase.i].op.Insert?
  }

  /** Event `b` is worker `w` giving it back, exactly as it was before event `a`. */
  ghost predicate PutsBack(s0: State, run: seq<Event>, a: nat, b: nat, w: nat, r: Rid) {
    && a < b < |run| && run[b] == UnlockNext(w) && After(s0, run[..a]).Some? && After(s0, run[..b + 1]).Some?
    && r in After(s0, run[..a]).value.recs && r in After(s0, run[..b + 1]).value.recs
    && After(s0, run[..b + 1]).value.recs[r] == After(s0, run[..a]).value.recs[r]
  }

  /** No transaction of worker `w` begins after event `a`. */
  predicate SameTx(run: seq<Event>, a: nat, w: nat) { forall b :: a < b < |run| ==> run[b] != Begin(w) }

  lemma TakenIsKept(s: State, w: nat, r: Rid)
    requires Inv(s) && Enabled(s, LockNext(w)) && r in s.recs && !s.recs[r].lock
          && Targets(s.workers[w], LockNext(w), r)
    requires !s.workers[w].wset[s.workers[w].phase.i].op.Insert?
    ensures Kept(Step(s, LockNext(w)), w, r, s.recs[r]) && s.recs[r].owner.Free?
  {
    RecMoves(s, LockNext(w), r);
    assert RInv(s, r) && WInv(s, w);
    var k' := Step(s, LockNext(w)).workers[w];
    assert Holds(k', s.workers[w].phase.i);
  }

  /** One step on: still held, through, or put back now. */
  lemma TakenStep(s: State, e: Event, w: nat, r: Rid, rec: Rec)
    requires Inv(s) && Enabled(s, e) && w < |s.workers| && (Kept(s, w, r, rec) || Through(s.workers[w].phase))
          && e != Begin(w)
    requires !rec.lock && rec.owner.Free?
    ensures w < |Step(s, e).workers|
    ensures || Kept(Step(s, e), w, r, rec) || Through(Step(s, e).workers[w].phase)
            || (e == UnlockNext(w) && r in Step(s, e).recs && Step(s, e).recs[r] == rec)
  {
    hide Step, Enabled, Kept, Inv;
    if Through(s.workers[w].phase) {
      ThroughStays(s, e, w);
    } else if e.w != w {
      KeptByOthers(s, e, w, r, rec);
      assert Kept(Step(s, e), w, r, rec) ==> w < |Step(s, e).workers| by { KeptIn(Step(s, e), w, r, rec); }
    } else {
      KeptByItself(s, e, r, rec);
    }
  }

  lemma KeptIn(s: State, w: nat, r: Rid, rec: Rec)
    ensures Kept(s, w, r, rec) ==> w < |s.workers|
  {
  }

  /** Where a taken record is later in the same transaction: still held, through, or put back. */
  lemma {:induction false} TakenRecord(s0: State, run: seq<Event>, a: nat, w: nat, r: Rid)
    requires Initial(s0) && After(s0, run).Some? && Takes(s0, run, a, w, r) && SameTx(run, a, w)
    ensures w < |After(s0, run).value.workers|
    ensures || Kept(After(s0, run).value, w, r, After(s0, run[..a]).value.recs[r])
            || Through(After(s0, run).value.workers[w].phase)
            || exists b :: PutsBack(s0, run, a, b, w, r)
  {
    var rest, e := run[..|run| - 1], run[|run| - 1];
    var s, rec := After(s0, rest).value, After(s0, run[..a]).value.recs[r];
    Always(s0, rest);
    Always(s0, run[..a]);
    InitKept(s0, rest);
    InitKept(s0, run);
    FreeIs(After(s0, run[..a]).value, r);
    hide Initial, Inv, Step, Enabled, Kept, PutsBack;
    if a == |run| - 1 {
      TakenIsKept(s, w, r);
    } else {
      assert rest[..a] == run[..a];
      TakenRecord(s0, rest, a, w, r);
      if b :| PutsBack(s0, rest, a, b, w, r) {
        BackLater(s0, run, a, b, w, r);
      } else {
        TakenStep(s, e, w, r, rec);
        if e == UnlockNext(w) && r in Step(s, e).recs && Step(s, e).recs[r] == rec { BackNow(s0, run, a, w, r); }
      }
    }
  }

  lemma BackLater(s0: State, run: seq<Event>, a: nat, b: nat, w: nat, r: Rid)
    requires run != [] && PutsBack(s0, run[..|run| - 1], a, b, w, r)
    ensures PutsBack(s0, run, a, b, w, r)
  {
    hide After;
    var rest := run[..|run| - 1];
    assert rest[..a] == run[..a] && rest[..b + 1] == run[..b + 1];
  }

  lemma BackNow(s0: State, run: seq<Event>, a: nat, w: nat, r: Rid)
    requires a < |run| - 1 && run[|run| - 1] == UnlockNext(w) && After(s0, run[..a]).Some? && After(s0, run).Some?
    requires r in After(s0, run[..a]).value.recs && r in After(s0, run).value.recs
    requires After(s0, run).value.recs[r] == After(s0, run[..a]).value.recs[r]
    ensures PutsBack(s0, run, a, |run| - 1, w, r)
  {
    hide After;
    assert run[..|run| - 1 + 1] == run;
  }

  lemma FreeIs(s: State, r: Rid)
    requires Inv(s) && r in s.recs && !s.recs[r].lock
    ensures s.recs[r].owner.Free?
  {
    assert RInv(s, r);
  }

  /** What was written stays written. */
  lemma WrittenStays(s: State, e: Event, r: Rid)
    requires Inv(s) && Enabled(s, e) && !Unwritten(s, r)
    ensures !Unwritten(Step(s, e), r)
  {
    C.OrderMoves(s, e);
    StepFrame(s, e);
    hide Step, Enabled, Inv;
    if r !in s.init {
      var p :| 0 <= p < |s.order| && CommittedWriter(s.order[p], r);
      assert CommittedWriter(Step(s, e).order[p], r);
    }
  }

  lemma {:induction false} WrittenLater(s0: State, run: seq<Event>, a: nat, r: Rid)
    requires Initial(s0) && After(s0, run).Some? && a <= |run| && After(s0, run[..a]).Some?
    requires r in After(s0, run[..a]).value.recs && !After(s0, run[..a]).value.recs[r].lock
    ensures r in After(s0, run).value.recs && !Unwritten(After(s0, run).value, r)
  {
    if a == |run| {
      assert run[..a] == run;
      Always(s0, run);
      assert RInv(After(s0, run).value, r);
    } else {
      var rest, e := run[..|run| - 1], run[|run| - 1];
      assert rest[..a] == run[..a];
      WrittenLater(s0, rest, a, r);
      Always(s0, rest);
      WrittenStays(After(s0, rest).value, e, r);
      RecMoves(After(s0, rest).value, e, r);
    }
  }

  /** A written record is locked only while somebody holds it, and never as an insertion. */
  lemma HeldBySomebody(s: State, w: nat, r: Rid)
    requires Inv(s) && UnbornOk(s) && r in s.recs && !Unwritten(s, r) && s.recs[r].lock
    requires w < |s.workers| && s.workers[w].phase.Dropping?
    ensures exists u :: 0 <= u < |s.workers| && u != w && HoldsRid(s.workers[u], r)
  {
    assert RInv(s, r) && !Unborn(s, r);
    var u := s.recs[r].owner.w;
    assert HoldsRid(s.workers[u], r);
  }

  /**
    A failed transaction gives back what it locked. Once its worker is dropping its inserts, every record
    that it took was put back in between, with its lock clear and its version, absent bit and body as they
    were before; and if the record is locked now, another worker holds it.
   */
  lemma FailedGivesBack(s0: State, run: seq<Event>, a: nat, w: nat, r: Rid)
    requires Initial(s0) && After(s0, run).Some? && Takes(s0, run, a, w, r) && SameTx(run, a, w)
    requires w < |After(s0, run).value.workers| && After(s0, run).value.workers[w].phase.Dropping?
    ensures exists b :: PutsBack(s0, run, a, b, w, r)
    ensures var s := After(s0, run).value;
            r in s.recs && (s.recs[r].lock ==> exists u :: 0 <= u < |s.workers| && u != w && HoldsRid(s.workers[u], r))
  {
    TakenRecord(s0, run, a, w, r);
    WrittenLater(s0, run, a, r);
    UnbornAlways(s0, run);
    Always(s0, run);
    var s := After(s0, run).value;
    hide Inv, UnbornOk, Unwritten, Initial;
    if s.recs[r].lock { HeldBySomebody(s, w, r); }
  }
}
