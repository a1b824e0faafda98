/**
  A failed lock as the source handles it: lockWriteSet marks the transaction aborted and gives back
  the locks it took, but validationPhase never tests the mark and overwrites it
  (server/enclave/silo_cc/silo_transaction.cpp, lockWriteSet and validationPhase).  Compared with
  `Silo.StepLock` and `Silo.StepUnlock`, where a failed lock ends the transaction.
 */
module LockConflict {
  import opened Base
  import opened Tid
  import opened Silo
  import opened SiloTheorems

  /** The locks of a failed lockWriteSet are all given back: from here the source goes on to validation. */
  predicate Resumes(s: State, e: Event)
    requires Enabled(s, e)
  {
    && e.UnlockNext?
    && var k := s.workers[e.w]; k.phase.i == k.phase.n < |k.wset|
  }

  /** The step as written. */
  function StepAsWritten(s: State, e: Event): State
    requires Enabled(s, e)
  {
    if Resumes(s, e) then Put(s, e.w, s.workers[e.w].(phase := Locked)) else Step(s, e)
  }

  function AfterAsWritten(s: State, run: seq<Event>): Option<State> {
    if run == [] then Some(s)
    else
      match AfterAsWritten(s, run[..|run| - 1])
      case None => None
      case Some(mid) =>
        if Enabled(mid, run[|run| - 1]) then Some(StepAsWritten(mid, run[|run| - 1])) else None
  }

  /** Some step of the run goes on after a failed lock. */
  ghost predicate Conflicts(s: State, run: seq<Event>) {
    exists n :: 0 <= n < |run| && ResumesAt(s, run, n)
  }

  ghost predicate ResumesAt(s: State, run: seq<Event>, n: nat)
    requires n < |run|
  {
    match AfterAsWritten(s, run[..n])
    case None => false
    case Some(mid) => Enabled(mid, run[n]) && Resumes(mid, run[n])
  }

  /** The two readings of a run agree all along. */
  ghost predicate Agree(s: State, run: seq<Event>) {
    forall n :: 0 <= n <= |run| ==> AfterAsWritten(s, run[..n]) == After(s, run[..n])
  }

  /** The code does what its comment says exactly as long as no transaction goes on after a failed lock. */
  lemma {:induction false} AgreeIff(s: State, run: seq<Event>)
    ensures Agree(s, run) <==> !Conflicts(s, run)
  {
    if run == [] {
      assert run[..0] == run;
    } else {
      AgreeIff(s, run[..|run| - 1]);
      LastConflict(s, run);
      LastAgrees(s, run);
    }
  }

  lemma LastConflict(s: State, run: seq<Event>)
    requires run != []
    ensures Conflicts(s, run) <==> Conflicts(s, run[..|run| - 1]) || ResumesAt(s, run, |run| - 1)
  {
    hide AfterAsWritten, Enabled, Resumes;
    var rest := run[..|run| - 1];
    forall n | 0 <= n < |rest| ensures ResumesAt(s, run, n) <==> ResumesAt(s, rest, n) {
      assert rest[..n] == run[..n];
    }
  }

  lemma LastAgrees(s: State, run: seq<Event>)
    requires run != []
    ensures Agree(s, run) <==> Agree(s, run[..|run| - 1]) && !ResumesAt(s, run, |run| - 1)
  {
    hide Enabled, Resumes, Step, StepAsWritten;
    var m := |run| - 1;
    var rest := run[..m];
    assert run[..|run|] == run && rest[..m] == rest;
    assert Agree(s, run) <==> Agree(s, rest) && AfterAsWritten(s, run) == After(s, run) by {
      hide AfterAsWritten, After;
      assert forall n :: 0 <= n <= m ==> rest[..n] == run[..n];
    }
    if Agree(s, rest) && After(s, rest).Some? && Enabled(After(s, rest).value, run[m]) {
      StepsDiffer(After(s, rest).value, run[m]);
    }
  }

  lemma StepsDiffer(s: State, e: Event)
    requires Enabled(s, e)
    ensures StepAsWritten(s, e) == Step(s, e) <==> !Resumes(s, e)
  {
    if Resumes(s, e) {
      assert Step(s, e).workers[e.w].phase == Dropping(0);
      assert StepAsWritten(s, e).workers[e.w].phase == Locked;
    }
  }

  /** An unlocked record does not show what the committed transactions, run one at a time, leave in it. */
  ghost predicate LostUpdate(init: map<Rid, Val>, s: State) {
    exists r :: r in s.recs && !s.recs[r].lock && Present(s.recs[r]) != Lookup(RunSerial(init, s.order, |s.order|), r)
  }

  /** Without a conflict no update is lost. */
  lemma NoConflictNoLoss(s: State, run: seq<Event>)
    requires Initial(s) && AfterAsWritten(s, run).Some? && !Conflicts(s, run)
    ensures !LostUpdate(s.init, AfterAsWritten(s, run).value)
  {
    AgreeIff(s, run);
    assert run[..|run|] == run;
    SerialAlways(s, run);
  }

  lemma SerialAlways(s: State, run: seq<Event>)
    requires Initial(s) && After(s, run).Some?
    ensures !LostUpdate(s.init, After(s, run).value)
  {
    hide Initial, After, RunSerial, Lookup;
    var t := After(s, run).value;
    if LostUpdate(s.init, t) {
      var r :| r in t.recs && !t.recs[r].lock && Present(t.recs[r]) != Lookup(RunSerial(s.init, t.order, |t.order|), r);
      RecordsAreSerial(s, run, r);
    }
  }

  // ---------------------------------------------------------------- a conflict that loses an update

  const ZERO_REC: Rec := Rec(false, false, ZERO, "x", Free)
  const HELD: Rec := ZERO_REC.(lock := true, owner := Own(0))
  const V1: Ver := Ver(1, 0)

  /** Two workers, one record. */
  function Two(k: Worker, l: Worker, rec: Rec, order: seq<Entry>): State {
    State(1, [k, l], map[0 := rec], map[0 := "x"], order)
  }

  const START: State := Two(FRESH, FRESH, ZERO_REC, [])

  /** A worker that overwrites record 0 with `val`. */
  function Writer(val: Val): Worker { FRESH.(phase := Exec, wset := [WElem(0, Write, val)]) }

  function Wrote(w: nat, val: Val, status: Status, ver: Ver): Entry {
    Entry(w, status, [], [WElem(0, Write, val)], ver, 1)
  }

  /** After its epoch load, at place `pos` of the serial order. */
  function Valid(val: Val, pos: nat): Worker {
    Writer(val).(phase := Validating(0), epoch := 1, local := 1, pos := pos)
  }

  function Chosen(val: Val, pos: nat): Worker { Valid(val, pos).(phase := Installing(0, false), mrc := V1) }

  const BOTH: seq<Entry> := [Wrote(0, "a", Committed, V1), Wrote(1, "b", Committed, V1)]

  function Shown(val: Val): Rec { Rec(false, false, V1, val, Free) }

  /** The run leads from the start to `s`. */
  ghost predicate Reaches(run: seq<Event>, s: State) { AfterAsWritten(START, run) == Some(s) }

  lemma {:induction false} Then(run: seq<Event>, e: Event, s: State, t: State) returns (next: seq<Event>)
    requires Reaches(run, s) && Enabled(s, e) && StepAsWritten(s, e) == t
    ensures Reaches(next, t)
  {
    next := run + [e];
    assert next[..|next| - 1] == run;
  }

  /** Both write record 0; worker 0 takes its lock. */
  lemma BothWrite(before: seq<Event>) returns (run: seq<Event>)
    requires Reaches(before, Two(FRESH, FRESH, ZERO_REC, []))
    ensures Reaches(run, Two(Writer("a"), Writer("b"), ZERO_REC, []))
  {
    hide Reaches;
    run := before;
    var s := Two(FRESH, FRESH, ZERO_REC, []);
    var t := Two(FRESH.(phase := Exec), FRESH, ZERO_REC, []);
    run := Then(run, Begin(0), s, t);
    s := t;
    t := Two(Writer("a"), FRESH, ZERO_REC, []);
    assert [] + [WElem(0, Write, "a")] == [WElem(0, Write, "a")];
    run := Then(run, AddWrite(0, 0, Write, "a"), s, t);
    s := t;
    t := Two(Writer("a"), FRESH.(phase := Exec), ZERO_REC, []);
    run := Then(run, Begin(1), s, t);
    s := t;
    t := Two(Writer("a"), Writer("b"), ZERO_REC, []);
    assert [] + [WElem(0, Write, "b")] == [WElem(0, Write, "b")];
    run := Then(run, AddWrite(1, 0, Write, "b"), s, t);
  }

  /** Worker 0 takes the lock. */
  lemma OneLocks(before: seq<Event>) returns (run: seq<Event>)
    requires Reaches(before, Two(Writer("a"), Writer("b"), ZERO_REC, []))
    ensures Reaches(run, Two(Writer("a").(phase := Locked), Writer("b"), HELD, []))
  {
    hide Reaches;
    run := before;
    var s := Two(Writer("a"), Writer("b"), ZERO_REC, []);
    var t := Two(Writer("a").(phase := Locking(0)), Writer("b"), ZERO_REC, []);
    run := Then(run, LockBegin(0), s, t);
    s := t;
    t := Two(Writer("a").(phase := Locking(1)), Writer("b"), HELD, []);
    run := Then(run, LockNext(0), s, t);
    s := t;
    t := Two(Writer("a").(phase := Locked), Writer("b"), HELD, []);
    run := Then(run, LockNext(0), s, t);
  }

  /** Worker 1 fails to lock the record, and goes on. */
  lemma OtherGoesOn(before: seq<Event>) returns (run: seq<Event>)
    requires Reaches(before, Two(Writer("a").(phase := Locked), Writer("b"), HELD, []))
    ensures Reaches(run, Two(Writer("a").(phase := Locked), Writer("b").(phase := Locked), HELD, []))
  {
    hide Reaches;
    run := before;
    var s := Two(Writer("a").(phase := Locked), Writer("b"), HELD, []);
    var t := Two(Writer("a").(phase := Locked), Writer("b").(phase := Locking(0)), HELD, []);
    run := Then(run, LockBegin(1), s, t);
    s := t;
    t := Two(Writer("a").(phase := Locked), Writer("b").(phase := Unlocking(0, 0)), HELD, []);
    run := Then(run, LockNext(1), s, t);
    s := t;
    t := Two(Writer("a").(phase := Locked), Writer("b").(phase := Locked), HELD, []);
    run := Then(run, UnlockNext(1), s, t);
  }

  /** Worker 0 comes first in the serial order. */
  lemma OneLoads(before: seq<Event>) returns (run: seq<Event>)
    requires Reaches(before, Two(Writer("a").(phase := Locked), Writer("b").(phase := Locked), HELD, []))
    ensures Reaches(run, Two(Valid("a", 0), Writer("b").(phase := Locked), HELD, [Wrote(0, "a", Pending, ZERO)]))
  {
    hide Reaches;
    run := before;
    var s := Two(Writer("a").(phase := Locked), Writer("b").(phase := Locked), HELD, []);
    var t := Two(Valid("a", 0).(phase := Loaded, local := 0), Writer("b").(phase := Locked), HELD,
        [Wrote(0, "a", Pending, ZERO)]);
    run := Then(run, LoadEpoch(0), s, t);
    s := t;
    t := Two(Valid("a", 0), Writer("b").(phase := Locked), HELD, [Wrote(0, "a", Pending, ZERO)]);
    run := Then(run, StoreEpoch(0), s, t);
  }

  /** Worker 1 comes second. */
  lemma OtherLoads(before: seq<Event>) returns (run: seq<Event>)
    requires Reaches(before, Two(Valid("a", 0), Writer("b").(phase := Locked), HELD, [Wrote(0, "a", Pending, ZERO)]))
    ensures Reaches(run, Two(Valid("a", 0), Valid("b", 1), HELD,
          [Wrote(0, "a", Pending, ZERO), Wrote(1, "b", Pending, ZERO)]))
  {
    hide Reaches;
    run := before;
    var s := Two(Valid("a", 0), Writer("b").(phase := Locked), HELD, [Wrote(0, "a", Pending, ZERO)]);
    var t := Two(Valid("a", 0), Valid("b", 1).(phase := Loaded, local := 0), HELD,
        [Wrote(0, "a", Pending, ZERO), Wrote(1, "b", Pending, ZERO)]);
    run := Then(run, LoadEpoch(1), s, t);
    s := t;
    t := Two(Valid("a", 0), Valid("b", 1), HELD, [Wrote(0, "a", Pending, ZERO), Wrote(1, "b", Pending, ZERO)]);
    run := Then(run, StoreEpoch(1), s, t);
  }

  /** Worker 0 commits. */
  lemma OneCommits(before: seq<Event>) returns (run: seq<Event>)
    requires Reaches(before, Two(Valid("a", 0), Valid("b", 1), HELD,
          [Wrote(0, "a", Pending, ZERO), Wrote(1, "b", Pending, ZERO)]))
    ensures Reaches(run, Two(Chosen("a", 0), Valid("b", 1), HELD,
          [Wrote(0, "a", Committed, V1), Wrote(1, "b", Pending, ZERO)]))
  {
    hide Reaches;
    run := before;
    var s := Two(Valid("a", 0), Valid("b", 1), HELD, [Wrote(0, "a", Pending, ZERO), Wrote(1, "b", Pending, ZERO)]);
    var t := Two(Chosen("a", 0).(phase := Logging), Valid("b", 1), HELD,
        [Wrote(0, "a", Committed, V1), Wrote(1, "b", Pending, ZERO)]);
    run := Then(run, Commit(0), s, t);
    s := t;
    t := Two(Chosen("a", 0), Valid("b", 1), HELD, [Wrote(0, "a", Committed, V1), Wrote(1, "b", Pending, ZERO)]);
    run := Then(run, Logged(0), s, t);
  }

  /** Worker 1 commits, with the same TID. */
  lemma OtherCommits(before: seq<Event>) returns (run: seq<Event>)
    requires Reaches(before, Two(Chosen("a", 0), Valid("b", 1), HELD,
          [Wrote(0, "a", Committed, V1), Wrote(1, "b", Pending, ZERO)]))
    ensures Reaches(run, Two(Chosen("a", 0), Chosen("b", 1), HELD, BOTH))
  {
    hide Reaches;
    run := before;
    var s := Two(Chosen("a", 0), Valid("b", 1), HELD, [Wrote(0, "a", Committed, V1), Wrote(1, "b", Pending, ZERO)]);
    var t := Two(Chosen("a", 0), Chosen("b", 1).(phase := Logging), HELD, BOTH);
    run := Then(run, Commit(1), s, t);
    s := t;
    t := Two(Chosen("a", 0), Chosen("b", 1), HELD, BOTH);
    run := Then(run, Logged(1), s, t);
  }

  /** Worker 1 installs, and releases the lock of worker 0. */
  lemma OtherInstalls(before: seq<Event>) returns (run: seq<Event>)
    requires Reaches(before, Two(Chosen("a", 0), Chosen("b", 1), HELD, BOTH))
    ensures Reaches(run, Two(Chosen("a", 0), Rest(Chosen("b", 1)), Shown("b"), BOTH))
  {
    hide Reaches;
    run := before;
    var s := Two(Chosen("a", 0), Chosen("b", 1), HELD, BOTH);
    var t := Two(Chosen("a", 0), Chosen("b", 1).(phase := Installing(0, true)), HELD.(body := "b"), BOTH);
    run := Then(run, InstallNext(1), s, t);
    s := t;
    t := Two(Chosen("a", 0), Chosen("b", 1).(phase := Installing(1, false)), Shown("b"), BOTH);
    run := Then(run, InstallNext(1), s, t);
    s := t;
    t := Two(Chosen("a", 0), Rest(Chosen("b", 1)), Shown("b"), BOTH);
    run := Then(run, InstallNext(1), s, t);
  }

  /** Worker 0 overwrites it. */
  lemma OneInstalls(before: seq<Event>) returns (run: seq<Event>)
    requires Reaches(before, Two(Chosen("a", 0), Rest(Chosen("b", 1)), Shown("b"), BOTH))
    ensures Reaches(run, Two(Rest(Chosen("a", 0)), Rest(Chosen("b", 1)), Shown("a"), BOTH))
  {
    hide Reaches;
    run := before;
    var s := Two(Chosen("a", 0), Rest(Chosen("b", 1)), Shown("b"), BOTH);
    var t := Two(Chosen("a", 0).(phase := Installing(0, true)), Rest(Chosen("b", 1)), Shown("b").(body := "a"), BOTH);
    run := Then(run, InstallNext(0), s, t);
    s := t;
    t := Two(Chosen("a", 0).(phase := Installing(1, false)), Rest(Chosen("b", 1)), Shown("a"), BOTH);
    run := Then(run, InstallNext(0), s, t);
    s := t;
    t := Two(Rest(Chosen("a", 0)), Rest(Chosen("b", 1)), Shown("a"), BOTH);
    run := Then(run, InstallNext(0), s, t);
  }

  lemma StartIs()
    ensures Initial(START)
  {
    var init: map<Rid, Val> := map[0 := "x"];
    assert (map r | r in init :: Rec(false, false, ZERO, init[r], Free)) == map[0 := ZERO_REC];
  }

  lemma Lost()
    ensures LostUpdate(START.init, Two(Rest(Chosen("a", 0)), Rest(Chosen("b", 1)), Shown("a"), BOTH))
  {
    var init: map<Rid, Val> := map[0 := "x"];
    assert RunSerial(init, BOTH, 2) == ApplyWrites(RunSerial(init, BOTH, 1), [WElem(0, Write, "b")]);
    assert Lookup(RunSerial(init, BOTH, 2), 0) == Some("b");
    assert Present(Shown("a")) == Some("a");
  }

  /**
    As written: two transactions overwrite one record, the second although it could not lock it.  Both
    commit, with the same TID, and the record keeps the value of the one that comes first in the serial order.
   */
  lemma ConflictLosesUpdate() returns (run: seq<Event>)
    ensures Initial(START) && AfterAsWritten(START, run).Some?
    ensures var s := AfterAsWritten(START, run).value;
            && LostUpdate(START.init, s)
            && (forall p :: 0 <= p < |s.order| ==> s.order[p].status.Committed? && Writes(s.order[p].wset, 0))
            && |s.order| == 2 && s.order[0].ver == s.order[1].ver
  {
    StartIs();
    assert Reaches([], START);
    run := [];
    run := BothWrite(run);
    run := OneLocks(run);
    run := OtherGoesOn(run);
    run := OneLoads(run);
    run := OtherLoads(run);
    run := OneCommits(run);
    run := OtherCommits(run);
    run := OtherInstalls(run);
    run := OneInstalls(run);
    Lost();
    assert BOTH[0].wset[0].r == 0 && BOTH[1].wset[0].r == 0;
  }
}
