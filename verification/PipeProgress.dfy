/**
  What is committed becomes durable. Safety says that nothing is called durable too early; here is the
  other half: from every reachable state between transactions the epochs, the buffers and the loggers can
  go on until the epoch file has passed what was GlobalEpoch and every client has been told - if and only
  if every logger serves a worker (server/enclave/silo_cc/silo_logger.cpp, silo_notifier.cpp,
  silo_transaction.cpp epochWork).
 */
module PipeProgress {
  import opened Base
  import opened Silo
  import opened SI = SiloInv
  import P = Pipeline
  import opened Pipeline
  import opened PipeInv
  import opened PipeTheorems
  import opened PipeRuns
  import opened RaiseCtidw
  import opened NoticeCount
  import N = Notices
  import PipeLogger
  import NR = NidRing

  type State = PipeInv.State

  // ---------------------------------------------------------------- states of a run

  ghost predicate HasWorker(j: State, l: nat) { exists w :: 0 <= w < |j.loggerOf| && j.loggerOf[w] == l }

  /** Every logger serves a worker. */
  ghost predicate Served(j: State) { forall l :: 0 <= l < |j.lg| ==> HasWorker(j, l) }

  lemma {:induction false} InvRun(g: Guards, j: State, run: seq<P.Event>)
    requires Guarded(g, j) && PInv(j) && P.After(g, j, run).Some?
    ensures var t := P.After(g, j, run).value; PInv(t) && t.loggerOf == j.loggerOf && |t.lg| == |j.lg|
  {
    if run != [] {
      InvRun(g, j, run[..|run| - 1]);
      var m, e := P.After(g, j, run[..|run| - 1]).value, run[|run| - 1];
      LoggersStay(g, m, e);
      PInvKeeps(g, m, e);
    }
  }

  lemma InvAt(g: Guards, j: State, t: State)
    requires Guarded(g, j) && PInv(j) && Reach(g, None, j, t)
    ensures PInv(t) && t.loggerOf == j.loggerOf && |t.lg| == |j.lg|
  {
    var run :| Leads(g, None, j, run, t);
    InvRun(g, j, run);
  }

  /** Whoever takes the steps. */
  lemma Anyone(g: Guards, l: nat, j: State, t: State)
    requires Reach(g, Some(l), j, t)
    ensures Reach(g, None, j, t)
  {
    var run :| Leads(g, Some(l), j, run, t);
    assert Leads(g, None, j, run, t);
  }

  /** Only loggers have moved; workers have at most got buffers back. */
  ghost predicate Still(j: State, t: State) {
    && WellFormed(j) && WellFormed(t) && t.s == j.s && t.loggerOf == j.loggerOf && |t.lg| == |j.lg|
    && forall w :: 0 <= w < |j.wp| ==> t.wp[w] == j.wp[w].(pool := t.wp[w].pool)
  }

  ghost predicate Resting(j: State) { forall l :: 0 <= l < |j.lg| ==> j.lg[l].phase.LIdle? }

  /** Between transactions, with everything published and every epoch stored; the loggers are at rest. */
  ghost predicate Calm(j: State) {
    && WellFormed(j) && AllIdle(j) && |j.wp| > 0 && Resting(j) && Served(j)
    && forall w :: 0 <= w < |j.wp| ==> CurRecs(j.wp[w]) == [] && j.s.workers[w].local == j.s.ge == j.wp[w].ctidw
  }

  lemma StillCalm(j: State, t: State)
    requires Calm(j) && Still(j, t) && Resting(t)
    ensures Calm(t)
  {
    forall l | 0 <= l < |t.lg| ensures HasWorker(t, l) {
      assert HasWorker(j, l);
    }
    forall w | 0 <= w < |t.wp| ensures CurRecs(t.wp[w]) == [] {
      assert CurRecs(j.wp[w]) == [];
    }
  }

  // ---------------------------------------------------------------- one round

  /** All workers of logger `l` have stored CTIDW `c`. */
  lemma {:induction false} CommonMin(j: State, l: nat, c: nat, k: nat, min: nat)
    requires WellFormed(j) && c != 0 && (forall u :: 0 <= u < |j.wp| ==> j.wp[u].ctidw == c)
    requires min == c || (min == 0 && exists u :: k <= u < |j.wp| && j.loggerOf[u] == l)
    ensures ScanMin(j, l, k, min) == c
    decreases |j.wp| - k
  {
    if k < |j.wp| {
      CommonMin(j, l, c, k + 1, if j.loggerOf[k] == l then c else min);
    }
  }

  lemma CalmMin(j: State, l: nat)
    requires PInv(j) && Calm(j) && l < |j.lg|
    ensures ScanMin(j, l, 0, 0) == j.s.ge != 0 && Sees(j, l, 0, false)
  {
    assert HasWorker(j, l);
    CommonMin(j, l, j.s.ge, 0, 0);
  }

  /** A round that empties the queue, of a logger that finds a minimum. */
  lemma EmptiesQueue(g: Guards, j: State, m: State, l: nat) returns (t: State)
    requires Reach(g, None, j, m) && WellFormed(m) && l < |m.lg| && m.lg[l].phase.LIdle? && Tidy(m, l)
    requires ScanMin(m, l, 0, 0) != 0 && (g.started ==> Sees(m, l, 0, false))
    ensures Reach(g, None, j, t) && Quiet(m, t, l) && t.lg[l].phase.LIdle? && t.lg[l].queue == map[]
  {
    hide Reach, Tidy, ScanMin, Sees;
    Here(g, Some(l), m);
    var s := ToSend(g, Some(l), m, l, m, m.lg[l].queue != map[]);
    t := EndSend(g, m, l, s);
    Anyone(g, l, m, t);
    Join(g, None, j, m, t);
  }

  lemma DrainRound(g: Guards, j: State, m: State, l: nat) returns (t: State)
    requires Guarded(g, j) && PInv(j) && Reach(g, None, j, m) && Calm(m) && l < |m.lg|
    ensures Reach(g, None, j, t) && Calm(t) && Quiet(m, t, l) && t.lg[l].queue == map[]
  {
    InvAt(g, j, m);
    CalmMin(m, l);
    InvTidy(m, l);
    hide Reach, Tidy, ScanMin, PInv, Sees, Calm;
    CalmRests(m);
    t := EmptiesQueue(g, j, m, l);
    QuietCalm(m, t, l);
  }

  lemma CalmRests(m: State)
    requires Calm(m)
    ensures WellFormed(m) && forall l :: 0 <= l < |m.lg| ==> m.lg[l].phase.LIdle?
  {
  }

  lemma QuietCalm(m: State, t: State, l: nat)
    requires Calm(m) && Quiet(m, t, l) && t.lg[l].phase.LIdle?
    ensures Calm(t)
  {
    StillCalm(m, t);
  }

  lemma SettledMore(j: State, l: nat)
    requires WellFormed(j) && l < |j.lg| && j.lg[l].phase.LCas?
    ensures PipeRuns.Settled(j, l).lg[l].pending == Above(j.lg[l].pending, j.lg[l].phase.dl)
    ensures var ph := j.lg[l].phase;
            PipeRuns.Settled(j, l).pepoch == if ph.seen < ph.dl && j.dur == ph.seen then ph.dl else j.pepoch
  {
    hide UpTo, Above, NR.Rotated, NR.DueCount;
  }

  /** Logger `l` has done a round with nothing queued: it takes `c` for its minimum. */
  ghost predicate RoundDone(m: State, t: State, l: nat, c: nat)
    requires l < |m.lg| && |t.lg| == |m.lg|
  {
    var dl := Least(m.lg, 1, m.lg[0].tld);
    if m.lg[l].tld + 1 < c then
      && t.lg[l].tld == c - 1 && t.lg[l].pending == Above(m.lg[l].pending, dl)
      && t.dur == (if m.dur < dl then dl else m.dur) && t.pepoch == if m.dur < dl then dl else m.pepoch
    else t.lg[l].tld == m.lg[l].tld && t.dur == m.dur && t.pepoch == m.pepoch
  }

  /** The end of a round. */
  lemma SendDone(g: Guards, m: State, l: nat, s: State) returns (t: State)
    requires WellFormed(s) && l < |s.lg| && Reach(g, Some(l), m, s) && s.lg[l].phase.LSend?
    ensures Reach(g, Some(l), m, t) && Quiet(s, t, l) && t.lg[l].phase.LIdle? && t.lg[l].queue == s.lg[l].queue
    ensures RoundDone(s, t, l, s.lg[l].phase.min)
  {
    hide Reach, PipeRuns.Settled, Above, Least;
    t := FromSend(g, Some(l), m, l, s);
    var at := InPhase(s, l, LCas(s.dur, Least(s.lg, 1, s.lg[0].tld), s.lg[l].phase.min));
    SettledIs(at, l);
    SettledMore(at, l);
  }

  lemma EmptyRound(g: Guards, j: State, m: State, l: nat) returns (t: State)
    requires Guarded(g, j) && PInv(j) && Reach(g, None, j, m) && Calm(m) && l < |m.lg| && m.lg[l].queue == map[]
    ensures Reach(g, None, j, t) && Calm(t) && Quiet(m, t, l) && t.lg[l].queue == map[] && RoundDone(m, t, l, m.s.ge)
  {
    InvAt(g, j, m);
    CalmMin(m, l);
    InvTidy(m, l);
    EmptyMin(m.s.ge);
    hide Reach, Tidy, ScanMin, PInv, Sees, Calm, Above, Least;
    CalmRests(m);
    Here(g, Some(l), m);
    var s := ToSend(g, Some(l), m, l, m, false);
    t := SendDone(g, m, l, s);
    LeastSame(s.lg, m.lg, 1, m.lg[0].tld);
    assert m.lg[l].pending + NidsOf([]) == m.lg[l].pending;
    Anyone(g, l, m, t);
    Join(g, None, j, m, t);
    QuietCalm(m, t, l);
  }

  // ---------------------------------------------------------------- all the loggers

  lemma {:induction false} LeastBetween(lg: seq<Logger>, i: nat, dl: nat, lo: nat, m: nat)
    requires lo <= dl && (forall k :: 0 <= k < |lg| ==> lo <= lg[k].tld)
    ensures lo <= Least(lg, i, dl) <= dl
    ensures i <= m < |lg| ==> Least(lg, i, dl) <= lg[m].tld
    decreases |lg| - i
  {
    if i < |lg| {
      LeastBetween(lg, i + 1, if lg[i].tld < dl then lg[i].tld else dl, lo, m);
    }
  }

  /** The first `n` loggers empty their queues. */
  lemma {:induction false} DrainAll(g: Guards, j: State, m: State, n: nat) returns (t: State)
    requires Guarded(g, j) && PInv(j) && Reach(g, None, j, m) && Calm(m) && n <= |m.lg|
    ensures Reach(g, None, j, t) && Calm(t) && Still(m, t)
    ensures forall l :: 0 <= l < n ==> t.lg[l].queue == map[]
  {
    hide Reach, Calm;
    t := m;
    if n == 0 {
      StillSelf(m);
    } else {
      t := DrainAll(g, j, m, n - 1);
      t := DrainRound(g, j, t, n - 1);
    }
  }

  lemma StillSelf(m: State)
    requires Calm(m)
    ensures Still(m, m)
  {
  }

  /** Nothing is queued, and the loggers are two epochs behind. */
  ghost predicate Behind(j: State) {
    Calm(j) && j.s.ge >= 2 && j.dur + 2 <= j.s.ge
    && forall l :: 0 <= l < |j.lg| ==> j.lg[l].queue == map[] && j.lg[l].tld + 2 <= j.s.ge
  }

  /** The first `n` loggers catch up: their durable epochs are one behind GlobalEpoch. */
  lemma {:induction false} CatchUp(g: Guards, j: State, m: State, n: nat) returns (t: State)
    requires Guarded(g, j) && PInv(j) && Reach(g, None, j, m) && Behind(m) && n <= |m.lg|
    ensures Reach(g, None, j, t) && Calm(t) && Still(m, t) && t.dur + 2 <= t.s.ge
    ensures forall l :: 0 <= l < |t.lg| ==>
              t.lg[l].queue == map[] && if l < n then t.lg[l].tld + 1 == t.s.ge else t.lg[l].tld == m.lg[l].tld
  {
    hide Reach, Calm, Least;
    t := m;
    if n == 0 {
      StillSelf(m);
    } else {
      var s := CatchUp(g, j, m, n - 1);
      t := EmptyRound(g, j, s, n - 1);
      LeastBetween(s.lg, 1, s.lg[0].tld, 0, n - 1);
    }
  }

  ghost predicate Waiting(j: State, d: nat) {
    forall l, i :: 0 <= l < |j.lg| && 0 <= i < |j.lg[l].pending| ==> j.lg[l].pending[i].epoch <= d
  }

  lemma {:induction false} AboveNone(ids: seq<Nid>, d: nat)
    requires forall i :: 0 <= i < |ids| ==> ids[i].epoch <= d
    ensures Above(ids, d) == []
  {
    if ids != [] {
      AboveNone(ids[1..], d);
    }
  }

  /** The loggers had caught up before GlobalEpoch moved. */
  ghost predicate Level(j: State) {
    Calm(j) && j.s.ge >= 3 && j.dur + 3 <= j.s.ge && Waiting(j, j.s.ge - 3)
    && forall l :: 0 <= l < |j.lg| ==> j.lg[l].queue == map[] && j.lg[l].tld + 2 == j.s.ge
  }

  /** The first `n` loggers tell everybody who waits; the first of them writes the epoch file. */
  lemma {:induction false} TellAll(g: Guards, j: State, m: State, n: nat) returns (t: State)
    requires Guarded(g, j) && PInv(j) && Reach(g, None, j, m) && Level(m) && n <= |m.lg|
    ensures Reach(g, None, j, t) && Calm(t) && Still(m, t) && (n == 0 ==> t.dur == m.dur)
          && (n > 0 ==> t.pepoch + 2 >= t.s.ge)
    ensures forall l :: 0 <= l < |t.lg| ==>
              && t.lg[l].queue == map[]
              && if l < n then t.lg[l].tld + 1 == t.s.ge && t.lg[l].pending == [] else t.lg[l] == m.lg[l]
  {
    hide Reach, Calm, Least, Above;
    t := m;
    if n == 0 {
      StillSelf(m);
    } else {
      var s := TellAll(g, j, m, n - 1);
      t := EmptyRound(g, j, s, n - 1);
      LeastBetween(s.lg, 1, s.lg[0].tld, s.s.ge - 2, 0);
      AboveNone(s.lg[n - 1].pending, Least(s.lg, 1, s.lg[0].tld));
    }
  }

  // ---------------------------------------------------------------- GlobalEpoch moves

  /** GlobalEpoch moves on, and every worker stores it. */
  lemma Advance(g: Guards, j: State, m: State) returns (t: State)
    requires PInv(j) && Reach(g, None, j, m) && Calm(m)
    ensures Reach(g, None, j, t) && Calm(t) && t.s.ge == m.s.ge + 1 && t.lg == m.lg && t.s.order == m.s.order
    ensures t.dur == m.dur && t.pepoch == m.pepoch
  {
    hide Reach, PInv;
    Ticks(g, m);
    var s := Ticked(m);
    Join(g, None, j, m, s);
    Raises(g, s, |s.wp|);
    t := RaisedTo(s, |s.wp|);
    Join(g, None, j, s, t);
    forall l | 0 <= l < |t.lg| ensures HasWorker(t, l) {
      assert HasWorker(m, l);
    }
    forall w | 0 <= w < |t.wp| ensures CurRecs(t.wp[w]) == [] {
      assert CurRecs(m.wp[w]) == [];
    }
  }

  // ---------------------------------------------------------------- to a calm state

  /** The first `n` loggers come to rest. */
  lemma {:induction false} RestAll(g: Guards, j: State, m: State, n: nat) returns (t: State)
    requires Guarded(g, j) && PInv(j) && Reach(g, None, j, m) && n <= |m.lg|
    requires g.started ==> forall l :: 0 <= l < |m.lg| ==> !m.lg[l].phase.LScan?
    ensures Reach(g, None, j, t) && Still(m, t)
    ensures forall l :: 0 <= l < n ==> t.lg[l].phase.LIdle?
    ensures forall l :: n <= l < |m.lg| ==> t.lg[l] == m.lg[l]
  {
    InvAt(g, j, m);
    hide Reach, PInv, Sees, Tidy;
    t := m;
    if n > 0 {
      var s := RestAll(g, j, m, n - 1);
      InvAt(g, j, s);
      InvTidy(s, n - 1);
      Here(g, Some(n - 1), s);
      t := Ends(g, s, n - 1, s);
      Anyone(g, n - 1, s, t);
      Join(g, None, j, s, t);
    }
  }

  /** The first `n` workers have published what they held. */
  ghost predicate Published(m: State, t: State, n: nat) {
    && WellFormed(m) && WellFormed(t) && t.s == m.s && t.loggerOf == m.loggerOf && |t.lg| == |m.lg|
    && (forall l :: 0 <= l < |m.lg| ==> t.lg[l].phase == m.lg[l].phase)
    && (forall w :: 0 <= w < |m.wp| ==> t.wp[w] == m.wp[w] || t.wp[w] == m.wp[w].(cur := None))
    && (forall w :: 0 <= w < n && w < |m.wp| ==> CurRecs(t.wp[w]) == [])
  }

  lemma {:induction false} PublishAll(g: Guards, j: State, m: State, n: nat) returns (t: State)
    requires WellFormed(m) && AllIdle(m) && Reach(g, None, j, m) && n <= |m.wp|
    ensures Reach(g, None, j, t) && Published(m, t, n)
  {
    hide Reach, Enq;
    t := m;
    if n > 0 {
      t := PublishAll(g, j, m, n - 1);
      if CurRecs(t.wp[n - 1]) != [] {
        t := Take(g, None, j, t, Publish(n - 1));
      }
    }
  }

  /** Everything is published and the loggers rest: the workers store GlobalEpoch. */
  lemma Wakens(g: Guards, j: State, m: State) returns (t: State)
    requires Reach(g, None, j, m) && WellFormed(m) && AllIdle(m) && Resting(m) && m.s.ge >= 1 && Served(m) && |m.wp| > 0
    requires forall w :: 0 <= w < |m.wp| ==> CurRecs(m.wp[w]) == []
    ensures Reach(g, None, j, t) && Calm(t) && t.s.ge == m.s.ge && t.s.order == m.s.order
  {
    hide Reach;
    Wakes(g, m, |m.s.workers|);
    var u := Woken(m);
    Join(g, None, j, m, u);
    assert forall w :: 0 <= w < |u.wp| ==> CurRecs(u.wp[w]) == [];
    Raises(g, u, |u.wp|);
    t := RaisedTo(u, |u.wp|);
    Join(g, None, j, u, t);
    forall l | 0 <= l < |t.lg| ensures HasWorker(t, l) {
      assert HasWorker(m, l);
    }
    forall w | 0 <= w < |t.wp| ensures CurRecs(t.wp[w]) == [] {
      assert CurRecs(u.wp[w]) == [];
    }
  }

  /** No logger is in the middle of a scan that the start-up order forbids to end. */
  ghost predicate Unblocked(g: Guards, j: State) {
    g.started ==> forall l :: 0 <= l < |j.lg| ==> !j.lg[l].phase.LScan?
  }

  lemma Calms(g: Guards, j: State, m: State) returns (t: State)
    requires Guarded(g, j) && PInv(j) && Reach(g, None, j, m) && AllIdle(m) && Served(j) && Unblocked(g, m)
    ensures Reach(g, None, j, t) && Calm(t) && t.s.ge == m.s.ge && t.s.order == m.s.order
  {
    hide Reach, PInv;
    IsAwake(g, j, m);
    t := RestAll(g, j, m, |m.lg|);
    t := PublishAll(g, j, t, |t.wp|);
    InvAt(g, j, t);
    forall l | 0 <= l < |t.lg| ensures HasWorker(t, l) {
      assert HasWorker(j, l);
    }
    t := Wakens(g, j, t);
  }

  lemma IsAwake(g: Guards, j: State, m: State)
    requires Guarded(g, j) && PInv(j) && Reach(g, None, j, m)
    ensures m.s.ge >= 1 && WellFormed(m) && (Served(j) ==> |m.wp| > 0)
  {
    InvAt(g, j, m);
    if Served(j) { assert HasWorker(j, 0); }
  }

  // ---------------------------------------------------------------- everything is told

  /** What the loggers have declared durable is behind GlobalEpoch. */
  lemma TldBelow(g: Guards, j: State, m: State)
    requires Guarded(g, j) && PInv(j) && Reach(g, None, j, m)
    ensures m.dur < m.s.ge && forall l :: 0 <= l < |m.lg| ==> m.dur <= m.lg[l].tld < m.s.ge
  {
    InvAt(g, j, m);
    DurBelow(m);
    forall l | 0 <= l < |m.lg| ensures m.dur <= m.lg[l].tld < m.s.ge {
      assert PDur(m, l) && PMin(m, l);
    }
  }

  /** Whatever waits is of an epoch up to the one in which the order last grew. */
  lemma WaitingFor(g: Guards, j: State, m: State, t: State)
    requires Guarded(g, j) && PInv(j) && Reach(g, None, j, m) && Reach(g, None, j, t) && t.s.order == m.s.order
    ensures Waiting(t, m.s.ge)
  {
    InvAt(g, j, m);
    InvAt(g, j, t);
    forall l, i | 0 <= l < |t.lg| && 0 <= i < |t.lg[l].pending| ensures t.lg[l].pending[i].epoch <= m.s.ge {
      assert PQueue(t, l) && NidOk(t.s.order, t.lg[l].pending[i]);
      assert OInv(m.s, t.lg[l].pending[i].p);
    }
  }

  /** Nothing is left anywhere, and the epoch file has passed `d`. */
  ghost predicate Flushed(t: State, d: nat) {
    Calm(t) && d <= t.pepoch && forall l :: 0 <= l < |t.lg| ==> t.lg[l].queue == map[] && t.lg[l].pending == []
  }

  lemma Flushes(g: Guards, j: State, m: State) returns (t: State)
    requires Guarded(g, j) && PInv(j) && Reach(g, None, j, m) && Calm(m)
    ensures Reach(g, None, j, t) && Flushed(t, m.s.ge) && t.s.order == m.s.order && t.s.ge == m.s.ge + 3
  {
    hide Reach, Calm, PInv;
    t := Advance(g, j, m);
    t := DrainAll(g, j, t, |t.lg|);
    TldBelow(g, j, t);
    t := Advance(g, j, t);
    IsAwake(g, j, m);
    t := CatchUp(g, j, t, |t.lg|);
    t := Advance(g, j, t);
    WaitingFor(g, j, m, t);
    t := TellAll(g, j, t, |t.lg|);
    CalmRests(t);
  }

  /** Every client has been told. */
  ghost predicate AllTold(t: State) {
    forall p :: 0 <= p < |t.s.order| && t.s.order[p].status.Committed? && t.s.order[p].wset != [] ==>
        Nid(p, t.s.order[p].ver.epoch) in t.notified
  }

  lemma {:induction false} NoneAtLoggers(lg: seq<Logger>, ge: nat, x: Nid)
    requires forall l :: 0 <= l < |lg| ==> lg[l].phase.LIdle? && lg[l].queue == map[] && lg[l].pending == []
    ensures AtLoggers(lg, ge, x) == 0
  {
    if lg != [] {
      NoneAtLoggers(lg[..|lg| - 1], ge, x);
      PipeLogger.FlattenEmpty(ge + 1);
    }
  }

  lemma NothingLeft(t: State, d: nat, x: Nid)
    requires PInv(t) && Flushed(t, d)
    ensures AtLoggers(t.lg, t.s.ge, x) == 0 && AtWorkers(t.wp, x) == 0
  {
    NoneAtLoggers(t.lg, t.s.ge, x);
    forall w | 0 <= w < |t.wp| ensures AtWorker(t.wp[w], x) == 0 {
      assert PWork(t, w) && CurRecs(t.wp[w]) == [];
    }
    NoneAtWorkers(t.wp, x);
  }

  lemma {:induction false} NoneAtWorkers(wp: seq<WPipe>, x: Nid)
    requires forall w :: 0 <= w < |wp| ==> AtWorker(wp[w], x) == 0
    ensures AtWorkers(wp, x) == 0
  {
    if wp != [] {
      assert AtWorker(wp[|wp| - 1], x) == 0;
      NoneAtWorkers(wp[..|wp| - 1], x);
    }
  }

  lemma FlushedTells(g: Guards, j0: State, run: seq<P.Event>, d: nat)
    requires Guarded(g, j0) && P.Initial(j0) && P.After(g, j0, run).Some? && Flushed(P.After(g, j0, run).value, d)
    ensures AllTold(P.After(g, j0, run).value)
  {
    PAlways(g, j0, run);
    var t := P.After(g, j0, run).value;
    forall p | 0 <= p < |t.s.order| && t.s.order[p].status.Committed? && t.s.order[p].wset != []
      ensures Nid(p, t.s.order[p].ver.epoch) in t.notified
    {
      var x := Nid(p, t.s.order[p].ver.epoch);
      NothingLeft(t, d, x);
      NoticesOnce(g, j0, run, x);
      IsOwed(t, p);
    }
  }

  lemma IsOwed(t: State, p: nat)
    requires PInv(t) && AllIdle(t) && p < |t.s.order| && t.s.order[p].status.Committed? && t.s.order[p].wset != []
    ensures Owed(t, Nid(p, t.s.order[p].ver.epoch))
  {
  }

  /** Recovery to epoch `d` rebuilds every transaction there is. */
  lemma AllWithin(j: State, d: nat)
    requires Inv(j.s) && j.s.ge <= d
    ensures PrefixLen(j.s.order, d) == |j.s.order|
  {
    forall p | 0 <= p < |j.s.order| ensures j.s.order[p].epoch <= d {
      assert OInv(j.s, p);
    }
  }

  lemma ServedStays(j: State, t: State)
    requires Served(j) && t.loggerOf == j.loggerOf && |t.lg| == |j.lg|
    ensures Served(t)
  {
    forall l | 0 <= l < |t.lg| ensures HasWorker(t, l) {
      assert HasWorker(j, l);
    }
  }

  lemma RunTo(g: Guards, j: State, t: State) returns (run: seq<P.Event>)
    requires Reach(g, None, j, t)
    ensures P.After(g, j, run) == Some(t)
  {
    run :| Leads(g, None, j, run, t);
  }

  lemma FlushedPast(t: State, d: nat)
    requires Flushed(t, d)
    ensures d <= t.pepoch && Calm(t) && AllIdle(t)
  {
  }

  /**
    Nothing committed stays volatile, and nobody waits for ever. From any reachable state in which no
    worker is in a transaction, if every logger serves a worker, the run can go on until the epoch that
    recovery reads covers every transaction there is and every client with a committed write has been
    told.
   */
  lemma EverythingIsTold(g: Guards, j0: State, run: seq<P.Event>) returns (more: seq<P.Event>)
    requires Guarded(g, j0) && P.Initial(j0) && P.After(g, j0, run).Some? && Served(j0)
    requires AllIdle(P.After(g, j0, run).value) && Unblocked(g, P.After(g, j0, run).value)
    ensures P.After(g, j0, run + more).Some?
    ensures var j, t := P.After(g, j0, run).value, P.After(g, j0, run + more).value;
            && t.s.order == j.s.order && j.s.ge <= t.pepoch && PrefixLen(t.s.order, t.pepoch) == |t.s.order|
            && AllIdle(t) && AllTold(t)
  {
    PAlways(g, j0, run);
    var j := P.After(g, j0, run).value;
    hide P.Initial, PInv, Flushed, Reach, AllTold, Calm;
    ServedStays(j0, j);
    Here(g, None, j);
    var t := Calms(g, j, j);
    t := Flushes(g, j, t);
    more := RunTo(g, j, t);
    AfterJoin(g, j0, run, more);
    FlushedTells(g, j0, run + more, j.s.ge);
    FlushedPast(t, j.s.ge);
    AllWithin(j, t.pepoch);
  }

  // ---------------------------------------------------------------- if and only if every logger serves a worker

  /** Logger `l` never finds a minimum. */
  predicate Idles(j: State, l: nat)
    requires l < |j.lg|
  {
    j.lg[l].tld == 0 && (j.lg[l].phase.LIdle? || (j.lg[l].phase.LScan? && j.lg[l].phase.min == 0))
  }

  /** Logger `m`, once it has read the durable epoch of logger `l`, carries 0. */
  predicate HeldBack(j: State, l: nat, m: nat)
    requires m < |j.lg|
  {
    var ph := j.lg[m].phase;
    && (ph.LCheck? && ph.i > l ==> ph.dl == 0)
        && (ph.LDurable? || ph.LCas? || ph.LPersist? || ph.LNotify? ==> ph.dl == 0)
  }

  ghost predicate Stuck(j: State, l: nat) {
    l < |j.lg| && j.dur == 0 && j.pepoch == 0 && Idles(j, l) && forall m :: 0 <= m < |j.lg| ==> HeldBack(j, l, m)
  }

  lemma OthersMove(g: Guards, j: State, e: P.Event, m: nat)
    requires P.Enabled(g, j, e) && m < |j.lg| && !ByLogger(e, m)
    ensures m < |P.Step(g, j, e).lg| && P.Step(g, j, e).lg[m].phase == j.lg[m].phase
    ensures P.Step(g, j, e).lg[m].tld == j.lg[m].tld
  {
    hide Silo.Step, Silo.Enabled, Enq, FlattenTo, QueueMin, UpTo, Above, Pushed, Passed, NR.Rotated, NR.DueCount;
  }

  lemma IdlesOn(g: Guards, j: State, e: P.Event, l: nat)
    requires P.Enabled(g, j, e) && l < |j.lg| && Idles(j, l)
          && (forall w :: 0 <= w < |j.loggerOf| ==> j.loggerOf[w] != l)
    ensures l < |P.Step(g, j, e).lg| && Idles(P.Step(g, j, e), l)
  {
    hide Silo.Step, Silo.Enabled, Enq, FlattenTo, QueueMin, UpTo, Above, Pushed, Passed, NR.Rotated, NR.DueCount;
    if !ByLogger(e, l) {
      OthersMove(g, j, e, l);
      hide P.Step, P.Enabled;
    }
  }

  lemma HeldMoves(g: Guards, j: State, e: P.Event, l: nat, m: nat)
    requires P.Enabled(g, j, e) && l < |j.lg| && j.lg[l].tld == 0 && m < |j.lg| && HeldBack(j, l, m) && ByLogger(e, m)
    ensures m < |P.Step(g, j, e).lg| && HeldBack(P.Step(g, j, e), l, m)
  {
    hide Silo.Step, Silo.Enabled, Enq, FlattenTo, QueueMin, UpTo, Above, Pushed, Passed, NR.Rotated, NR.DueCount;
  }

  lemma HeldStill(g: Guards, j: State, e: P.Event, l: nat, m: nat)
    requires P.Enabled(g, j, e) && l < |j.lg| && j.lg[l].tld == 0 && m < |j.lg| && HeldBack(j, l, m)
    ensures m < |P.Step(g, j, e).lg| && HeldBack(P.Step(g, j, e), l, m)
  {
    hide P.Step, P.Enabled;
    if ByLogger(e, m) { HeldMoves(g, j, e, l, m); } else { OthersMove(g, j, e, m); }
  }

  lemma StuckStays(g: Guards, j: State, e: P.Event, l: nat)
    requires P.Enabled(g, j, e) && Stuck(j, l) && (forall w :: 0 <= w < |j.loggerOf| ==> j.loggerOf[w] != l)
    ensures Stuck(P.Step(g, j, e), l)
  {
    IdlesOn(g, j, e, l);
    N.DurMoves(g, j, e, l);
    forall m | 0 <= m < |j.lg| ensures HeldBack(P.Step(g, j, e), l, m) {
      HeldStill(g, j, e, l, m);
    }
    if e.LogCas? || e.LogPersist? { assert HeldBack(j, l, e.l); }
    hide P.Step, P.Enabled;
  }

  lemma {:induction false} StuckAlways(g: Guards, j0: State, run: seq<P.Event>, l: nat)
    requires P.Initial(j0) && P.After(g, j0, run).Some? && l < |j0.lg| && !HasWorker(j0, l)
    ensures Stuck(P.After(g, j0, run).value, l) && P.After(g, j0, run).value.loggerOf == j0.loggerOf
  {
    if run != [] {
      StuckAlways(g, j0, run[..|run| - 1], l);
      hide Stuck;
      LoggersStay(g, P.After(g, j0, run[..|run| - 1]).value, run[|run| - 1]);
      StuckStays(g, P.After(g, j0, run[..|run| - 1]).value, run[|run| - 1], l);
    }
  }

  /** The epoch file can pass `d`. */
  ghost predicate CanPass(g: Guards, j: State, d: nat) { exists t :: Reach(g, None, j, t) && d <= t.pepoch }

  lemma {:induction false} PassesOn(g: Guards, j: State, m: State, d: nat)
    requires Guarded(g, j) && PInv(j) && Reach(g, None, j, m) && Calm(m)
    ensures CanPass(g, j, d)
    decreases if d < m.s.ge then 0 else d - m.s.ge
  {
    hide Reach, PInv, Calm;
    var t := Flushes(g, j, m);
    FlushedPast(t, m.s.ge);
    if m.s.ge < d { PassesOn(g, j, t, d); }
  }

  /** The epoch that recovery reads passes every bound in some run if and only if every logger serves a worker. */
  lemma PassesIffServed(g: Guards, j0: State)
    requires Guarded(g, j0) && P.Initial(j0)
    ensures (forall d :: CanPass(g, j0, d)) <==> Served(j0)
  {
    if Served(j0) {
      InitPInv(j0);
      Here(g, None, j0);
      var m := Calms(g, j0, j0);
      forall d ensures CanPass(g, j0, d) {
        PassesOn(g, j0, m, d);
      }
    } else {
      var l :| 0 <= l < |j0.lg| && !HasWorker(j0, l);
      forall t | Reach(g, None, j0, t) ensures t.pepoch == 0 {
        var run :| Leads(g, None, j0, run, t);
        StuckAlways(g, j0, run, l);
      }
      assert !CanPass(g, j0, 1);
    }
  }
}
