/**
  What the two orderings of `Guards` are needed for.  Start-up: logging is sound without the second one
  exactly if no two workers share a logger.  And without the first one a durable transaction can be
  in no file at all.
 */
module PipeGuards {
  import opened Base
  import opened Silo
  import P = Pipeline
  import opened Pipeline
  import opened PipeInv
  import opened PipeTheorems
  import opened PipeRuns

  type State = PipeInv.State

  // ---------------------------------------------------------------- fresh records

  lemma {:induction false} FreshRid(used: set<Rid>) returns (r: Rid)
    ensures forall x :: x in used ==> x < r
  {
    if used == {} {
      r := 0;
    } else {
      var x :| x in used;
      r := FreshRid(used - {x});
      if r <= x { r := x + 1; }
      assert forall y :: y in used ==> y == x || y in used - {x};
    }
  }

  // ---------------------------------------------------------------- start-up

  /** The scan passes zero words. */
  lemma {:induction false} SkipsTo(g: Guards, j: State, l: nat, m: State, ph: LPhase, n: nat) returns (t: State)
    requires WellFormed(j) && l < |j.lg| && Reach(g, None, j, m) && !g.started
    requires m == InPhase(j, l, ph) && ph.LScan? && ph.min == 0 && ph.k <= n <= |j.wp|
    requires forall w :: 0 <= w < |j.wp| ==> j.wp[w].ctidw == 0
    ensures Reach(g, None, j, t) && |t.lg| == |j.lg| && t == InPhase(j, l, t.lg[l].phase)
    ensures var ph' := t.lg[l].phase; ph'.LScan? && ph'.k == n && ph'.min == 0 && ph'.deq == ph.deq
    decreases n - ph.k
  {
    hide Reach;
    t := m;
    if ph.k < n {
      t := Take(g, None, j, m, LogScan(l));
      t := SkipsTo(g, j, l, t, t.lg[l].phase, n);
    }
  }

  /** Only worker `v` of those still to be scanned has stored CTIDW. */
  lemma {:induction false} LoneMin(j: State, l: nat, v: nat, k: nat, min: nat)
    requires WellFormed(j) && v < |j.wp| && j.loggerOf[v] == l && j.wp[v].ctidw != 0
    requires forall u :: k <= u < |j.wp| && j.loggerOf[u] == l && u != v ==> j.wp[u].ctidw == 0
    requires min == if k <= v then 0 else j.wp[v].ctidw
    ensures ScanMin(j, l, k, min) == j.wp[v].ctidw
    decreases |j.wp| - k
  {
    if k < |j.wp| {
      LoneMin(j, l, v, k + 1, if k + 1 <= v then 0 else j.wp[v].ctidw);
    }
  }

  /** As at the start, but the workers have stored ThLocalEpoch. */
  ghost predicate Awake(j: State) {
    && P.Initial(j.(s := j.s.(workers := seq(|j.s.workers|, _ => FRESH)))) && j.s.ge >= 1
    && forall w :: 0 <= w < |j.s.workers| ==> j.s.workers[w] == At(FRESH, j.s.ge)
  }

  lemma Awakes(g: Guards, j0: State) returns (t: State)
    requires P.Initial(j0)
    ensures Reach(g, None, j0, t) && Awake(t) && t.loggerOf == j0.loggerOf && t.lg == j0.lg && t.wp == j0.wp
  {
    hide Reach;
    Wakes(g, j0, |j0.s.workers|);
    t := Woken(j0);
    assert seq(|t.s.workers|, _ => FRESH) == j0.s.workers;
  }

  /** Worker `u` has a record of the current epoch in its buffer that the scan of logger `l` has passed over. */
  ghost predicate Overlooked(j: State, l: nat, u: nat, v: nat) {
    && WellFormed(j) && l < |j.lg| && u < v < |j.wp| && j.loggerOf[u] == l == j.loggerOf[v]
    && AllIdle(j) && j.s.ge >= 1 && (forall w :: 0 <= w < |j.s.workers| ==> j.s.workers[w].local == j.s.ge)
    && (var lg := j.lg[l];
        && lg.phase.LScan? && lg.phase.k == u + 1 && lg.phase.min == 0 && !lg.phase.deq
        && lg.queue == map[] && lg.tld == 0)
    && (forall w :: 0 <= w < |j.wp| && w != u ==> j.wp[w].ctidw == 0 && CurRecs(j.wp[w]) == [])
    && CurRecs(j.wp[u]) != [] && CurRecs(j.wp[u])[0].ver.epoch == j.s.ge
  }

  lemma Overlooks(g: Guards, j0: State, m: State, l: nat, u: nat, v: nat) returns (t: State)
    requires !g.started && Reach(g, None, j0, m) && Awake(m) && u < v < |m.wp| && m.loggerOf[u] == l == m.loggerOf[v]
    ensures Reach(g, None, j0, t) && Overlooked(t, l, u, v)
  {
    hide Reach, Leads;
    Here(g, None, m);
    t := Take(g, None, m, m, LogStart(l, false));
    t := SkipsTo(g, m, l, t, LScan(0, 0, false, false), u + 1);
    t := Take(g, None, m, t, Raise(u));
    var r := FreshRid(t.s.recs.Keys);
    assert CanInsert(t, u, r);
    Inserts(g, t, u, r, "v");
    Join(g, None, m, t, Inserted(t, u, r, "v"));
    t := Inserted(t, u, r, "v");
    Join(g, None, j0, m, t);
  }

  /** The scan has yet to read worker `v`, the only one with a CTIDW, of the epoch after the overlooked record. */
  ghost predicate Misled(j: State, l: nat, u: nat, v: nat) {
    && WellFormed(j) && l < |j.lg| && u < v < |j.wp| && j.loggerOf[v] == l == j.loggerOf[u] && j.wp[v].ctidw >= 2
    && (forall w :: u < w < |j.wp| && w != v ==> j.wp[w].ctidw == 0)
    && (var lg := j.lg[l];
        && lg.phase.LScan? && lg.phase.k == u + 1 && lg.phase.min == 0 && !lg.phase.deq
        && lg.queue == map[] && lg.tld == 0)
    && CurRecs(j.wp[u]) != [] && CurRecs(j.wp[u])[0].ver.epoch + 1 == j.wp[v].ctidw
  }

  lemma Misleads(g: Guards, j0: State, m: State, l: nat, u: nat, v: nat) returns (t: State)
    requires !g.started && Reach(g, None, j0, m) && Overlooked(m, l, u, v)
    ensures Reach(g, None, j0, t) && Misled(t, l, u, v)
  {
    hide Reach, Leads;
    Ticks(g, m);
    Join(g, None, j0, m, Ticked(m));
    t := Take(g, None, j0, Ticked(m), Raise(v));
  }

  /** The scan takes worker `v`'s CTIDW for the minimum. */
  lemma DeclaresDurable(g: Guards, j0: State, m: State, l: nat, u: nat, v: nat) returns (t: State)
    requires !g.started && Reach(g, None, j0, m) && Misled(m, l, u, v)
    ensures Reach(g, None, j0, t) && WellFormed(t) && u < |t.wp| && !Sound(t, u)
  {
    hide Reach, Leads, Settled;
    var e := m.wp[v].ctidw;
    LoneMin(m, l, v, u + 1, 0);
    Here(g, None, m);
    t := Scans(g, None, m, l, m, m.lg[l].phase);
    t := FromQueue(g, None, m, l, t);
    EmptyMin(e);
    var q := t;
    t := FromSend(g, None, m, l, q);
    SettledIs(InPhase(q, l, LCas(q.dur, Least(q.lg, 1, q.lg[0].tld), q.lg[l].phase.min)), l);
    Join(g, None, j0, m, t);
    assert CurRecs(t.wp[u]) == CurRecs(m.wp[u]);
  }

  ghost predicate AllSound(j: State) { WellFormed(j) && forall w :: 0 <= w < |j.wp| ==> Sound(j, w) }

  /** Every run of a configuration keeps every durable epoch sound. */
  ghost predicate AlwaysSound(g: Guards, j0: State) {
    forall t :: Reach(g, None, j0, t) ==> AllSound(t)
  }

  /**
    find_min_epoch may skip workers that have not stored CTIDW, with the flush ordering alone: durable epochs
    are then sound in every run exactly if no two workers share a logger.
   */
  lemma StartIffNoSharing(j0: State)
    requires P.Initial(j0)
    ensures AlwaysSound(Guards(true, false), j0) <==> NoSharing(j0)
  {
    var g := Guards(true, false);
    if NoSharing(j0) {
      forall t | Reach(g, None, j0, t) ensures AllSound(t) {
        SoundRun(g, j0, t);
      }
    } else {
      var u: nat, v: nat :| u < |j0.loggerOf| && v < |j0.loggerOf| && j0.loggerOf[u] == j0.loggerOf[v] && u < v;
      var t := Awakes(g, j0);
      t := Overlooks(g, j0, t, j0.loggerOf[u], u, v);
      t := Misleads(g, j0, t, j0.loggerOf[u], u, v);
      t := DeclaresDurable(g, j0, t, j0.loggerOf[u], u, v);
      assert !AllSound(t);
    }
  }

  lemma SoundRun(g: Guards, j0: State, t: State)
    requires Guarded(g, j0) && P.Initial(j0) && Reach(g, None, j0, t)
    ensures AllSound(t)
  {
    var run :| Leads(g, None, j0, run, t);
    PAlways(g, j0, run);
    forall w | 0 <= w < |t.wp| ensures Sound(t, w) {
      SoundNow(t, w);
    }
  }

  // ---------------------------------------------------------------- CTIDW raised too early

  /** One worker and its logger, both at rest; the worker's only record, of epoch `e`, is still in its buffer. */
  ghost predicate Holding(j: State, e: nat, tld: nat, dur: nat) {
    && WellFormed(j) && |j.wp| == |j.lg| == 1 && AllIdle(j) && j.s.workers[0].local == j.s.ge >= 1
    && j.lg[0].phase.LIdle? && j.lg[0].queue == map[] && j.lg[0].file == [] && j.lg[0].tld == tld && j.dur == dur
    && |j.s.order| == 1 && (var o := j.s.order[0]; o.epoch == e && o.w == 0 && o.status.Committed? && o.wset != [])
  }

  lemma Holds1(g: Guards, j0: State, m: State) returns (t: State)
    requires Reach(g, None, j0, m) && Awake(m) && |m.wp| == |m.lg| == 1
    ensures Reach(g, None, j0, t) && Holding(t, t.s.ge, 0, 0)
  {
    hide Reach, Leads;
    t := Take(g, None, j0, m, Raise(0));
    var r := FreshRid(t.s.recs.Keys);
    assert CanInsert(t, 0, r);
    Inserts(g, t, 0, r, "v");
    Join(g, None, j0, t, Inserted(t, 0, r, "v"));
    t := Inserted(t, 0, r, "v");
  }

  /** The worker goes to the next epoch and raises CTIDW, and the logger runs a round. */
  lemma RaisesEarly(g: Guards, j0: State, m: State, e: nat, tld: nat, dur: nat) returns (t: State)
    requires !g.flush && Reach(g, None, j0, m) && Holding(m, e, tld, dur) && tld < m.s.ge
    ensures Reach(g, None, j0, t) && t.s.ge == m.s.ge + 1 && Holding(t, e, m.s.ge, if dur < tld then tld else dur)
  {
    hide Reach, Leads, ScanMin;
    Ticks(g, m);
    Join(g, None, j0, m, Ticked(m));
    t := Take(g, None, j0, Ticked(m), Raise(0));
    var s, n := t, t.s.ge;
    EmptyMin(n);
    assert Only(s, 0, 0, n) && Least(s.lg, 1, tld) == tld;
    t := WholeRound(g, None, j0, 0, s, 0, n, false);
  }

  /**
    Without the flush ordering crash consistency fails, even with every worker started: one worker and one logger
    reach a state in which a committed transaction of a durable epoch is in no file.
   */
  lemma FlushIsNeeded(j0: State) returns (t: State)
    requires P.Initial(j0) && |j0.wp| == |j0.lg| == 1
    ensures Reach(Guards(false, true), None, j0, t) && WellFormed(t) && !Holds(t, t.dur)
    ensures t.lg[0].file == []
    ensures exists p :: 0 <= p < |t.s.order| && t.s.order[p].status.Committed? && t.s.order[p].epoch <= t.dur
                        && t.s.order[p].wset != []
  {
    var g := Guards(false, true);
    t := Awakes(g, j0);
    t := Holds1(g, j0, t);
    var e := t.s.ge;
    t := RaisesEarly(g, j0, t, e, 0, 0);
    t := RaisesEarly(g, j0, t, e, e, 0);
    assert t.s.order[0].epoch <= t.dur;
    NotHeld(t, e);
  }

  lemma NotHeld(j: State, e: nat)
    requires Holding(j, e, e + 1, e)
    ensures !Holds(j, j.dur)
  {
    assert PrefixLen(j.s.order, e) == 1;
    assert WorkerLog(j.s.order, 1, 0) == WorkerLog(j.s.order, 0, 0) + LogOf(j.s.order[0].wset, j.s.order[0].ver);
    assert RecsOf(j.lg[0].file, 0) == [];
  }
}
