/**
  When epochWork may raise CTIDW (server/enclave/silo_cc/silo_transaction.cpp): exactly when the current
  buffer holds nothing older.  Otherwise the worker's logger, going on alone, declares an epoch durable
  whose record is still in that buffer.
 */
module RaiseCtidw {
  import opened Base
  import opened Silo
  import P = Pipeline
  import opened Pipeline
  import opened PipeInv
  import opened PipeBuffers
  import opened PipeTheorems
  import opened PipeRuns

  type State = PipeInv.State

  // ---------------------------------------------------------------- a round under way comes to its end

  /** The logger has come to rest, and its queue holds nothing new. */
  ghost predicate Rests(m: State, t: State, l: nat) {
    && Quiet(m, t, l) && t.lg[l].phase.LIdle? && forall e :: e in t.lg[l].queue ==>
        e in m.lg[l].queue && t.lg[l].queue[e] == m.lg[l].queue[e]
  }

  lemma EndSend(g: Guards, j: State, l: nat, m: State) returns (t: State)
    requires WellFormed(m) && l < |m.lg| && Reach(g, Some(l), j, m) && m.lg[l].phase.LSend?
    ensures Reach(g, Some(l), j, t) && Rests(m, t, l)
    ensures t.lg[l].tld == if m.lg[l].tld + 1 < m.lg[l].phase.min then m.lg[l].phase.min - 1 else m.lg[l].tld
  {
    hide Reach, Settled;
    t := FromSend(g, Some(l), j, l, m);
    SettledIs(InPhase(m, l, LCas(m.dur, Least(m.lg, 1, m.lg[0].tld), m.lg[l].phase.min)), l);
  }

  lemma EndCas(g: Guards, j: State, l: nat, m: State) returns (t: State)
    requires WellFormed(m) && l < |m.lg| && Reach(g, Some(l), j, m) && m.lg[l].phase.LCas?
    ensures Reach(g, Some(l), j, t) && Rests(m, t, l)
  {
    hide Reach, Settled;
    t := Settles(g, Some(l), j, l, m);
    SettledIs(m, l);
  }

  lemma EndTell(g: Guards, j: State, l: nat, m: State) returns (t: State)
    requires WellFormed(m) && l < |m.lg| && Reach(g, Some(l), j, m)
          && (m.lg[l].phase.LPersist? || m.lg[l].phase.LNotify?)
    ensures Reach(g, Some(l), j, t) && Rests(m, t, l)
  {
    hide Reach, Told;
    t := m;
    if t.lg[l].phase.LPersist? {
      t := Take(g, Some(l), j, t, LogPersist(l));
    }
    ToldIs(t, l);
    t := Tells(g, Some(l), j, l, t);
  }

  lemma EndStore(g: Guards, j: State, l: nat, m: State) returns (t: State)
    requires WellFormed(m) && l < |m.lg| && Reach(g, Some(l), j, m) && m.lg[l].phase.LStore?
    ensures Reach(g, Some(l), j, t) && Rests(m, t, l)
  {
    hide Reach;
    t := Take(g, Some(l), j, m, LogStore(l));
  }

  lemma EndCheck(g: Guards, j: State, l: nat, m: State) returns (t: State)
    requires WellFormed(m) && l < |m.lg| && Reach(g, Some(l), j, m)
          && (m.lg[l].phase.LCheck? || m.lg[l].phase.LDurable?)
    ensures Reach(g, Some(l), j, t) && Rests(m, t, l)
  {
    hide Reach, Settled;
    t := m;
    if t.lg[l].phase.LCheck? {
      Here(g, Some(l), m);
      t := Checks(g, Some(l), m, l, m, m.lg[l].phase);
      Join(g, Some(l), j, m, t);
    }
    t := Take(g, Some(l), j, t, LogLoadDur(l));
    t := EndCas(g, j, l, t);
  }

  lemma EndDequeue(g: Guards, j: State, l: nat, m: State) returns (t: State)
    requires WellFormed(m) && l < |m.lg| && Reach(g, Some(l), j, m) && Tidy(m, l)
    requires m.lg[l].phase.LQueue? || m.lg[l].phase.LHave? || m.lg[l].phase.LWriting?
    ensures Reach(g, Some(l), j, t) && Rests(m, t, l)
  {
    hide Reach, Tidy, Drained;
    if m.lg[l].phase.LQueue? {
      t := FromQueue(g, Some(l), j, l, m);
    } else if m.lg[l].phase.LHave? {
      t := FromHave(g, Some(l), j, l, m);
    } else {
      TidyBatch(m, l);
      t := WritesOut(g, Some(l), j, l, m);
    }
    t := EndSend(g, j, l, t);
  }

  lemma TidyBatch(m: State, l: nat)
    requires l < |m.lg| && m.lg[l].phase.LWriting? && Tidy(m, l)
    ensures Owned(m.lg[l].phase.batch, |m.wp|)
  {
  }

  lemma EndScan(g: Guards, j: State, l: nat, m: State) returns (t: State)
    requires WellFormed(m) && l < |m.lg| && Reach(g, Some(l), j, m) && Tidy(m, l)
    requires m.lg[l].phase.LScan? && (g.started ==> Sees(m, l, m.lg[l].phase.k, m.lg[l].phase.blind))
    ensures Reach(g, Some(l), j, t) && Rests(m, t, l)
  {
    hide Reach, Sees;
    Here(g, Some(l), m);
    t := Scans(g, Some(l), m, l, m, m.lg[l].phase);
    Join(g, Some(l), j, m, t);
    if t.lg[l].phase.LQueue? {
      t := EndDequeue(g, j, l, t);
    }
  }

  /** From any state the logger comes to rest. */
  lemma Ends(g: Guards, j: State, l: nat, m: State) returns (t: State)
    requires WellFormed(m) && l < |m.lg| && Reach(g, Some(l), j, m) && Tidy(m, l)
    requires g.started && m.lg[l].phase.LScan? ==> Sees(m, l, m.lg[l].phase.k, m.lg[l].phase.blind)
    ensures Reach(g, Some(l), j, t) && Rests(m, t, l)
  {
    hide Reach, Sees, Tidy;
    var ph := m.lg[l].phase;
    if ph.LIdle? {
      t := m;
    } else if ph.LScan? {
      t := EndScan(g, j, l, m);
    } else if ph.LQueue? || ph.LHave? || ph.LWriting? {
      t := EndDequeue(g, j, l, m);
    } else if ph.LSend? {
      t := EndSend(g, j, l, m);
    } else if ph.LCheck? || ph.LDurable? {
      t := EndCheck(g, j, l, m);
    } else if ph.LCas? {
      t := EndCas(g, j, l, m);
    } else if ph.LStore? {
      t := EndStore(g, j, l, m);
    } else {
      t := EndTell(g, j, l, m);
    }
  }

  // ---------------------------------------------------------------- and the next ones

  lemma RestsTidy(m: State, t: State, l: nat)
    requires l < |m.lg| && Tidy(m, l) && Rests(m, t, l)
    ensures Tidy(t, l)
  {
  }

  /** An idle logger with one worker drains its queue and takes the worker's CTIDW for its minimum. */
  lemma Drains(g: Guards, j: State, l: nat, m: State, w: nat, e: nat, c: nat) returns (t: State)
    requires WellFormed(m) && l < |m.lg| && Reach(g, Some(l), j, m) && Tidy(m, l) && Only(m, l, w, e)
          && m.lg[l].phase.LIdle? && c < e
    ensures Reach(g, Some(l), j, t) && Quiet(m, t, l) && c <= t.lg[l].tld
  {
    hide Reach, ScanMin, Sees;
    t := m;
    if t.lg[l].queue != map[] {
      t := WholeRound(g, Some(l), j, l, t, w, e, true);
    }
    if t.lg[l].tld < c {
      var s := t;
      t := WholeRound(g, Some(l), j, l, s, w, e, false);
      EmptyMin(e);
    }
  }

  // ---------------------------------------------------------------- the exact condition

  lemma InvTidy(j: State, l: nat)
    requires PInv(j) && l < |j.lg|
    ensures Tidy(j, l)
  {
    assert PQueue(j, l);
    var g := j.lg[l];
    forall i | 0 <= i < |Batch(g)| ensures Batch(g)[i].w < |j.wp| {
      assert BufOk(j, l, Batch(g)[i]);
    }
    forall e, i | e in g.queue && 0 <= i < |g.queue[e]| ensures g.queue[e][i].w < |j.wp| {
      assert BufOk(j, l, g.queue[e][i]);
    }
  }

  /** A step of a sole worker's logger keeps the invariant, whatever the guards. */
  lemma LoggerKeeps(g: Guards, j: State, e: P.Event, l: nat)
    requires PInv(j) && P.Enabled(g, j, e) && ByLogger(e, l) && Sole(j, l)
    ensures PInv(P.Step(g, j, e)) && Sole(P.Step(g, j, e), l)
  {
    if e.LogScan? { SoleTakesNone(j, l); }
    LoggersStay(g, j, e);
    var all := Guards(true, true);
    assert P.Enabled(all, j, e) && P.Step(all, j, e) == P.Step(g, j, e) by { hide PInv, Sole; }
    PInvKeeps(all, j, e);
  }

  lemma {:induction false} LoggerRun(g: Guards, j: State, run: seq<P.Event>, t: State, l: nat)
    requires PInv(j) && Sole(j, l) && Leads(g, Some(l), j, run, t)
    ensures PInv(t)
    ensures Sole(t, l)
  {
    if run != [] {
      var rest := run[..|run| - 1];
      assert Leads(g, Some(l), j, rest, P.After(g, j, rest).value);
      LoggerRun(g, j, rest, P.After(g, j, rest).value, l);
      hide PInv, Sole;
      LoggerKeeps(g, P.After(g, j, rest).value, run[|run| - 1], l);
    }
  }

  /** Worker `w`'s logger, going on alone, can end up with a durable epoch that promises too much. */
  ghost predicate CanGoWrong(g: Guards, j: State, w: nat)
    requires WellFormed(j) && w < |j.wp|
  {
    exists t :: Reach(g, Some(j.loggerOf[w]), j, t) && WellFormed(t) && w < |t.wp| && !Sound(t, w)
  }

  lemma StaysSound(g: Guards, j: State, w: nat)
    requires PInv(j) && w < |j.wp| && Sole(j, j.loggerOf[w])
    ensures !CanGoWrong(g, j, w)
  {
    var l := j.loggerOf[w];
    forall t | Reach(g, Some(l), j, t) && WellFormed(t) && w < |t.wp| ensures Sound(t, w) {
      var run :| Leads(g, Some(l), j, run, t);
      LoggerRun(g, j, run, t, l);
      SoundNow(t, w);
    }
  }

  lemma GoesWrong(g: Guards, j: State, w: nat)
    requires PInv(j) && w < |j.wp| && Sole(j, j.loggerOf[w]) && j.s.workers[w].phase.Idle? && j.s.workers[w].local != 0
    requires HoldsOlder(j.wp[w], j.s.workers[w].local)
    ensures CanGoWrong(g, StepRaise(j, w), w)
  {
    var m, l, e, b := StepRaise(j, w), j.loggerOf[w], j.s.workers[w].local, j.wp[w].cur.value;
    InvTidy(j, l);
    assert Tidy(m, l);
    assert PWork(j, w) && PMin(j, l);
    Here(g, Some(l), m);
    var t := Ends(g, m, l, m);
    RestsTidy(m, t, l);
    assert Only(t, l, w, e);
    var s := t;
    t := Drains(g, m, l, s, w, e, b.epoch);
    assert CurRecs(t.wp[w]) == b.recs && b.recs[0].ver.epoch == b.epoch;
    assert !Sound(t, w);
  }

  /**
    Raising CTIDW in epochWork is safe exactly when the current buffer holds nothing older: otherwise the worker's
    logger alone, by finishing its round, draining its queue and scanning again, stores a durable epoch
    whose record is still in the buffer.
   */
  lemma SafeIffFlushed(g: Guards, j: State, w: nat)
    requires PInv(j) && w < |j.wp| && Sole(j, j.loggerOf[w]) && j.s.workers[w].phase.Idle? && j.s.workers[w].local != 0
    ensures CanGoWrong(g, StepRaise(j, w), w) <==> HoldsOlder(j.wp[w], j.s.workers[w].local)
  {
    if HoldsOlder(j.wp[w], j.s.workers[w].local) {
      GoesWrong(g, j, w);
    } else {
      RaiseKeeps(j, w);
      StaysSound(g, StepRaise(j, w), w);
    }
  }
}
