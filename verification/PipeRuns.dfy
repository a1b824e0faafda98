/**
  Runs of the pipeline in larger strides: what a worker, the leader or a logger can do on its own from
  any state.  The exact conditions about the guards are proved with these.
 */
module PipeRuns {
  import opened Base
  import opened Tid
  import opened Silo
  import P = Pipeline
  import opened Pipeline
  import opened PipeInv
  import PS = PipeStep
  import NR = NidRing

  type State = PipeInv.State

  // ---------------------------------------------------------------- reaching a state

  /** A step of logger `l`. */
  predicate ByLogger(e: P.Event, l: nat) {
    && (e.LogStart? || e.LogScan? || e.LogQueueMin? || e.LogDeq? || e.LogWrite? || e.LogSend? || e.LogCheck?
        || e.LogLoadDur? || e.LogCas? || e.LogPersist? || e.LogNotify? || e.LogStore?)
    && e.l == l
  }

  /** A run leads from `j` to `t`; with `who` given, of steps of that logger only. */
  ghost predicate Reach(g: Guards, who: Option<nat>, j: State, t: State) {
    exists run :: Leads(g, who, j, run, t)
  }

  ghost predicate Leads(g: Guards, who: Option<nat>, j: State, run: seq<P.Event>, t: State) {
    P.After(g, j, run) == Some(t) && (who.Some? ==> forall i :: 0 <= i < |run| ==> ByLogger(run[i], who.value))
  }

  lemma Here(g: Guards, who: Option<nat>, j: State)
    ensures Reach(g, who, j, j)
  {
    assert Leads(g, who, j, [], j);
  }

  /** One step more. */
  lemma Take(g: Guards, who: Option<nat>, j: State, m: State, e: P.Event) returns (t: State)
    requires Reach(g, who, j, m) && P.Enabled(g, m, e) && (who.Some? ==> ByLogger(e, who.value))
    ensures t == P.Step(g, m, e) && Reach(g, who, j, t)
  {
    t := P.Step(g, m, e);
    var run :| Leads(g, who, j, run, m);
    assert (run + [e])[..|run + [e]| - 1] == run;
    assert Leads(g, who, j, run + [e], t);
  }

  lemma {:induction false} AfterJoin(g: Guards, j: State, a: seq<P.Event>, b: seq<P.Event>)
    requires P.After(g, j, a).Some?
    ensures P.After(g, j, a + b) == P.After(g, P.After(g, j, a).value, b)
  {
    if b == [] {
      assert a + b == a;
    } else {
      AfterJoin(g, j, a, b[..|b| - 1]);
      assert (a + b)[..|a + b| - 1] == a + b[..|b| - 1];
    }
  }

  /** One run after the other. */
  lemma Join(g: Guards, who: Option<nat>, j: State, m: State, t: State)
    requires Reach(g, who, j, m) && Reach(g, who, m, t)
    ensures Reach(g, who, j, t)
  {
    var a :| Leads(g, who, j, a, m);
    var b :| Leads(g, who, m, b, t);
    AfterJoin(g, j, a, b);
    assert Leads(g, who, j, a + b, t);
  }

  // ---------------------------------------------------------------- epochs

  ghost predicate AllIdle(j: State) { forall w :: 0 <= w < |j.s.workers| ==> j.s.workers[w].phase.Idle? }

  function At(k: Worker, e: nat): Worker { k.(epoch := e, local := e) }

  /** The first `n` workers have stored GlobalEpoch. */
  function WokenTo(j: State, n: nat): State {
    var ws := j.s.workers;
    j.(s := j.s.(workers := seq(|ws|, w requires 0 <= w < |ws| => if w < n then At(ws[w], j.s.ge) else ws[w])))
  }

  function Woken(j: State): State { WokenTo(j, |j.s.workers|) }

  lemma Refreshes(g: Guards, j: State, w: nat) returns (t: State)
    requires WellFormed(j) && w < |j.s.workers| && j.s.workers[w].phase.Idle?
    ensures Reach(g, None, j, t) && t == j.(s := j.s.(workers := j.s.workers[w := At(j.s.workers[w], j.s.ge)]))
  {
    hide Reach;
    Here(g, None, j);
    t := Take(g, None, j, j, Work(EwBegin(w, false)));
    t := Take(g, None, j, t, Work(EwLoad(w)));
    t := Take(g, None, j, t, Work(EwStore(w)));
  }

  lemma {:induction false} Wakes(g: Guards, j: State, n: nat)
    requires WellFormed(j) && AllIdle(j) && n <= |j.s.workers|
    ensures Reach(g, None, j, WokenTo(j, n))
  {
    hide Reach;
    if n == 0 {
      Here(g, None, j);
      assert WokenTo(j, 0) == j;
    } else {
      Wakes(g, j, n - 1);
      var t := Refreshes(g, WokenTo(j, n - 1), n - 1);
      assert t == WokenTo(j, n);
      Join(g, None, j, WokenTo(j, n - 1), t);
    }
  }

  /** The leader's scan, from worker `i`. */
  lemma {:induction false} Scanning(g: Guards, j: State, m: State, i: nat) returns (t: State)
    requires WellFormed(j) && |j.s.workers| > 0 && 1 <= i <= |j.s.workers| && Reach(g, None, j, m)
    requires forall w :: 0 < w < |j.s.workers| ==> j.s.workers[w].local == j.s.ge
    requires m == j.(s := j.s.(workers := j.s.workers[0 := j.s.workers[0].(phase := Leading(i, j.s.ge))]))
    ensures Reach(g, None, j, t)
    ensures t == j.(s := j.s.(ge := j.s.ge + 1, workers := j.s.workers[0 := j.s.workers[0].(phase := Refreshing)]))
    decreases |j.s.workers| - i
  {
    hide Reach;
    t := Take(g, None, j, m, Work(Lead(0)));
    if i < |j.s.workers| {
      t := Scanning(g, j, t, i + 1);
    }
  }

  /** With every worker in GlobalEpoch the leader goes on to the next, and all follow. */
  function Ticked(j: State): State { Woken(j.(s := j.s.(ge := j.s.ge + 1))) }

  lemma LeadsOn(g: Guards, j: State) returns (t: State)
    requires WellFormed(j) && |j.s.workers| > 0 && j.s.workers[0].phase.Idle?
    requires forall w :: 0 < w < |j.s.workers| ==> j.s.workers[w].local == j.s.ge
    ensures Reach(g, None, j, t)
    ensures t == j.(s := j.s.(ge := j.s.ge + 1, workers := j.s.workers[0 := At(j.s.workers[0], j.s.ge + 1)]))
  {
    hide Reach;
    Here(g, None, j);
    t := Take(g, None, j, j, Work(EwBegin(0, true)));
    t := Scanning(g, j, t, 1);
    t := Take(g, None, j, t, Work(EwLoad(0)));
    t := Take(g, None, j, t, Work(EwStore(0)));
  }

  lemma Ticks(g: Guards, j: State)
    requires WellFormed(j) && |j.s.workers| > 0 && AllIdle(j)
    requires forall w :: 0 < w < |j.s.workers| ==> j.s.workers[w].local == j.s.ge
    ensures Reach(g, None, j, Ticked(j))
  {
    hide Reach;
    var t := LeadsOn(g, j);
    Wakes(g, t, |t.s.workers|);
    assert Woken(t) == Ticked(j);
    Join(g, None, j, t, Woken(t));
  }

  // ---------------------------------------------------------------- CTIDW

  /** The first `n` workers have stored CTIDW. */
  function RaisedTo(j: State, n: nat): State
    requires WellFormed(j)
  {
    j.(wp := seq(|j.wp|, w requires 0 <= w < |j.wp| => if w < n then j.wp[w].(ctidw := j.s.workers[w].local)
        else j.wp[w]))
  }

  lemma {:induction false} Raises(g: Guards, j: State, n: nat)
    requires WellFormed(j) && AllIdle(j) && n <= |j.wp|
    requires forall w :: 0 <= w < n ==> j.s.workers[w].local != 0 && CurRecs(j.wp[w]) == []
    ensures Reach(g, None, j, RaisedTo(j, n))
  {
    hide Reach;
    if n == 0 {
      Here(g, None, j);
      assert RaisedTo(j, 0) == j;
    } else {
      Raises(g, j, n - 1);
      var t := Take(g, None, j, RaisedTo(j, n - 1), Raise(n - 1));
      assert t == RaisedTo(j, n);
    }
  }

  // ---------------------------------------------------------------- one transaction

  /** Worker `w` can run a transaction of GlobalEpoch that inserts record `r`. */
  ghost predicate CanInsert(j: State, w: nat, r: Rid) {
    && WellFormed(j) && w < |j.wp| && r !in j.s.recs
    && var k, p := j.s.workers[w], j.wp[w];
       && k.phase.Idle? && k.mrc == ZERO && 0 < j.s.ge == k.local == p.ctidw && !p.pushed
       && p.cur.Some? && p.cur.value.recs == [] && p.cur.value.nids == []
  }

  function InsertEntry(j: State, w: nat, r: Rid, val: Val, status: Status, ver: Ver): Entry {
    Entry(w, status, [RElem(r, ZERO, None)], [WElem(r, Insert, val)], ver, j.s.ge)
  }

  /** Worker `w` in the middle of it. */
  function Doing(j: State, w: nat, r: Rid, val: Val, ph: Phase): Worker
    requires w < |j.s.workers|
  {
    var e := InsertEntry(j, w, r, val, Pending, ZERO);
    j.s.workers[w].(phase := ph, rset := e.rset, wset := e.wset, maxr := ZERO, maxw := ZERO)
  }

  function Put(j: State, w: nat, k: Worker, r: Rid, rec: Rec, order: seq<Entry>): State
    requires w < |j.s.workers|
  {
    j.(s := j.s.(workers := j.s.workers[w := k], recs := j.s.recs[r := rec], order := order))
  }

  /** The buffer with the transaction's record. */
  function Filled(b: Buffer, j: State, r: Rid, val: Val): Buffer {
    b.(epoch := j.s.ge, recs := [LogRec(r, Insert, val, Ver(j.s.ge, 0))], nids := [Nid(|j.s.order|, j.s.ge)])
  }

  /** The state after the transaction, its record in the current buffer. */
  function Inserted(j: State, w: nat, r: Rid, val: Val): State
    requires w < |j.s.workers| && w < |j.wp| && j.wp[w].cur.Some?
  {
    var k, v := j.s.workers[w], Ver(j.s.ge, 0);
    Put(j, w, k.(rset := [], wset := [], maxr := ZERO, maxw := ZERO, mrc := v, epoch := j.s.ge, pos := |j.s.order|),
        r, Rec(false, false, v, val, Free), j.s.order + [InsertEntry(j, w, r, val, Committed, v)])
    .(wp := j.wp[w := j.wp[w].(cur := Some(Filled(j.wp[w].cur.value, j, r, val)))])
  }

  /** Before its epoch load, and after it. */
  function Early(j: State, w: nat, r: Rid, val: Val, ph: Phase): State
    requires w < |j.s.workers|
  {
    Put(j, w, Doing(j, w, r, val, ph), r, Rec(true, true, ZERO, val, Own(w)), j.s.order)
  }

  function Late(j: State, w: nat, r: Rid, val: Val, ph: Phase, status: Status, ver: Ver): State
    requires w < |j.s.workers|
  {
    Put(j, w, Doing(j, w, r, val, ph).(epoch := j.s.ge, pos := |j.s.order|, mrc := ver), r,
        Rec(true, true, ZERO, val, Own(w)),
        j.s.order + [InsertEntry(j, w, r, val, status, ver)])
  }

  lemma InsertReserves(g: Guards, j: State, w: nat, r: Rid, val: Val) returns (t: State)
    requires CanInsert(j, w, r)
    ensures Reach(g, None, j, t) && t == Early(j, w, r, val, Exec)
  {
    hide Reach;
    Here(g, None, j);
    t := Take(g, None, j, j, Work(Begin(w)));
    t := Take(g, None, j, t, Work(AddInsert(w, r, val)));
    assert t.s.workers[w].rset == [RElem(r, ZERO, None)] && t.s.workers[w].wset == [WElem(r, Insert, val)];
  }

  lemma InsertLocks(g: Guards, j: State, w: nat, r: Rid, val: Val, m: State) returns (t: State)
    requires CanInsert(j, w, r) && Reach(g, None, j, m) && m == Early(j, w, r, val, Exec)
    ensures Reach(g, None, j, t) && t == Early(j, w, r, val, Locked)
  {
    hide Reach;
    t := Take(g, None, j, m, Work(LockBegin(w)));
    t := Take(g, None, j, t, Work(LockNext(w)));
    t := Take(g, None, j, t, Work(LockNext(w)));
  }

  lemma InsertLoads(g: Guards, j: State, w: nat, r: Rid, val: Val, m: State) returns (t: State)
    requires CanInsert(j, w, r) && Reach(g, None, j, m) && m == Early(j, w, r, val, Locked)
    ensures Reach(g, None, j, t) && t == Late(j, w, r, val, Validating(0), Pending, ZERO)
  {
    hide Reach;
    t := Take(g, None, j, m, Work(LoadEpoch(w)));
    t := Take(g, None, j, t, Work(StoreEpoch(w)));
  }

  lemma InsertValidates(g: Guards, j: State, w: nat, r: Rid, val: Val, m: State) returns (t: State)
    requires CanInsert(j, w, r) && Reach(g, None, j, m) && m == Late(j, w, r, val, Validating(0), Pending, ZERO)
    ensures Reach(g, None, j, t) && t == Late(j, w, r, val, Validating(1), Pending, ZERO)
  {
    hide Reach;
    assert m.s.workers[w].wset[0].r == r && Writes(m.s.workers[w].wset, r);
    t := Take(g, None, j, m, Work(ValidateNext(w)));
  }

  lemma InsertCommits(g: Guards, j: State, w: nat, r: Rid, val: Val, m: State) returns (t: State)
    requires CanInsert(j, w, r) && Reach(g, None, j, m) && m == Late(j, w, r, val, Validating(1), Pending, ZERO)
    ensures Reach(g, None, j, t) && t == Late(j, w, r, val, Logging, Committed, Ver(j.s.ge, 0))
  {
    hide Reach;
    t := Take(g, None, j, m, Work(Commit(w)));
    assert t.s.workers[w].mrc == Ver(j.s.ge, 0);
  }

  lemma InsertLogs(g: Guards, j: State, w: nat, r: Rid, val: Val, m: State) returns (t: State)
    requires CanInsert(j, w, r) && Reach(g, None, j, m) && m == Late(j, w, r, val, Logging, Committed, Ver(j.s.ge, 0))
    ensures Reach(g, None, j, t)
    ensures t == Late(j, w, r, val, Installing(0, false), Committed, Ver(j.s.ge, 0))
                 .(wp := j.wp[w := j.wp[w].(cur := Some(Filled(j.wp[w].cur.value, j, r, val)))])
  {
    hide Reach;
    var k := m.s.workers[w];
    assert [] + LogOf(k.wset, k.mrc) == [LogRec(r, Insert, val, Ver(j.s.ge, 0))];
    t := Take(g, None, j, m, Push(w));
    assert t.wp[w].cur.value == Filled(j.wp[w].cur.value, j, r, val);
    t := Take(g, None, j, t, WalDone(w));
  }

  lemma Inserts(g: Guards, j: State, w: nat, r: Rid, val: Val)
    requires CanInsert(j, w, r)
    ensures Reach(g, None, j, Inserted(j, w, r, val))
  {
    hide Reach;
    var t := InsertReserves(g, j, w, r, val);
    t := InsertLocks(g, j, w, r, val, t);
    t := InsertLoads(g, j, w, r, val, t);
    t := InsertValidates(g, j, w, r, val, t);
    t := InsertCommits(g, j, w, r, val, t);
    t := InsertLogs(g, j, w, r, val, t);
    InsertInstalls(g, j, w, r, val, t);
  }

  lemma InsertInstalls(g: Guards, j: State, w: nat, r: Rid, val: Val, m: State)
    requires CanInsert(j, w, r) && Reach(g, None, j, m)
    requires m == Late(j, w, r, val, Installing(0, false), Committed, Ver(j.s.ge, 0))
                  .(wp := j.wp[w := j.wp[w].(cur := Some(Filled(j.wp[w].cur.value, j, r, val)))])
    ensures Reach(g, None, j, Inserted(j, w, r, val))
  {
    hide Reach;
    var t := Take(g, None, j, m, Work(InstallNext(w)));
    t := Take(g, None, j, t, Work(InstallNext(w)));
    assert t == Inserted(j, w, r, val);
  }

  // ---------------------------------------------------------------- a logger on its own

  /** Only logger `l` has moved; workers have at most got buffers back. */
  ghost predicate Quiet(j: State, t: State, l: nat) {
    && WellFormed(j) && WellFormed(t) && t.s == j.s && t.loggerOf == j.loggerOf && l < |j.lg| == |t.lg|
    && (forall w :: 0 <= w < |j.wp| ==> t.wp[w] == j.wp[w].(pool := t.wp[w].pool))
    && (forall m :: 0 <= m < |j.lg| && m != l ==> t.lg[m] == j.lg[m])
  }

  function InPhase(j: State, l: nat, ph: LPhase): State
    requires l < |j.lg|
  {
    PutL(j, l, j.lg[l].(phase := ph))
  }

  /** The minimum of the CTIDW words of workers `k` and on, and of `min`. */
  function ScanMin(j: State, l: nat, k: nat, min: nat): nat
    requires WellFormed(j)
    decreases |j.wp| - k
  {
    if k >= |j.wp| then min
    else
      var c := j.wp[k].ctidw;
      ScanMin(j, l, k + 1, if j.loggerOf[k] == l && c != 0 && (min == 0 || c < min) then c else min)
  }

  /** The scan takes no minimum after a skipped word. */
  ghost predicate Sees(j: State, l: nat, k: nat, blind: bool)
    requires WellFormed(j)
  {
    forall u :: k <= u < |j.wp| && j.loggerOf[u] == l ==> !blind && j.wp[u].ctidw != 0
  }

  lemma {:induction false} Scans(g: Guards, who: Option<nat>, j: State, l: nat, m: State, ph: LPhase) returns (t: State)
    requires WellFormed(j) && l < |j.lg| && Reach(g, who, j, m) && (who.Some? ==> who.value == l)
    requires m == InPhase(j, l, ph) && ph.LScan? && (g.started ==> Sees(j, l, ph.k, ph.blind))
    ensures Reach(g, who, j, t)
    ensures var min := ScanMin(j, l, ph.k, ph.min);
            t == InPhase(j, l, if min == 0 then LIdle else LQueue(min, ph.deq))
    decreases |j.wp| - ph.k
  {
    hide Reach;
    t := Take(g, who, j, m, LogScan(l));
    if ph.k < |j.wp| {
      t := Scans(g, who, j, l, t, t.lg[l].phase);
    }
  }

  /** The least durable epoch of loggers `i` and on, and `dl`. */
  function Least(lg: seq<Logger>, i: nat, dl: nat): nat
    decreases |lg| - i
  {
    if i >= |lg| then dl else Least(lg, i + 1, if lg[i].tld < dl then lg[i].tld else dl)
  }

  lemma {:induction false} Checks(g: Guards, who: Option<nat>, j: State, l: nat, m: State,
                                  ph: LPhase) returns (t: State)
    requires WellFormed(j) && l < |j.lg| && Reach(g, who, j, m) && (who.Some? ==> who.value == l)
    requires m == InPhase(j, l, ph) && ph.LCheck?
    ensures Reach(g, who, j, t) && t == InPhase(j, l, LDurable(Least(j.lg, ph.i, ph.dl), ph.min))
    decreases |j.lg| - ph.i
  {
    hide Reach;
    t := Take(g, who, j, m, LogCheck(l));
    if ph.i < |j.lg| {
      t := Checks(g, who, j, l, t, t.lg[l].phase);
    }
  }

  lemma {:induction false} LeastSame(a: seq<Logger>, b: seq<Logger>, i: nat, dl: nat)
    requires |a| == |b| && forall k :: 0 <= k < |a| ==> a[k].tld == b[k].tld
    ensures Least(a, i, dl) == Least(b, i, dl)
    decreases |a| - i
  {
    if i < |a| {
      LeastSame(a, b, i + 1, if a[i].tld < dl then a[i].tld else dl);
    }
  }

  /** The end of a round, from its compare-exchange or its write of the file. */
  function Told(j: State, l: nat): State
    requires l < |j.lg| && j.lg[l].phase.LNotify?
  {
    StepStore(StepNotify(j, l), l)
  }

  function Settled(j: State, l: nat): State
    requires l < |j.lg| && j.lg[l].phase.LCas?
  {
    var a := StepCas(j, l);
    Told(if a.lg[l].phase.LPersist? then StepPersist(a, l) else a, l)
  }

  lemma Tells(g: Guards, who: Option<nat>, j: State, l: nat, m: State) returns (t: State)
    requires WellFormed(m) && l < |m.lg| && Reach(g, who, j, m) && (who.Some? ==> who.value == l)
          && m.lg[l].phase.LNotify?
    ensures Reach(g, who, j, t) && t == Told(m, l)
  {
    hide Reach, UpTo, Above;
    t := Take(g, who, j, m, LogNotify(l));
    t := Take(g, who, j, t, LogStore(l));
  }

  lemma Settles(g: Guards, who: Option<nat>, j: State, l: nat, m: State) returns (t: State)
    requires WellFormed(m) && l < |m.lg| && Reach(g, who, j, m) && (who.Some? ==> who.value == l) && m.lg[l].phase.LCas?
    ensures Reach(g, who, j, t) && t == Settled(m, l)
  {
    hide Reach, Told;
    t := Take(g, who, j, m, LogCas(l));
    if t.lg[l].phase.LPersist? {
      t := Take(g, who, j, t, LogPersist(l));
    }
    t := Tells(g, who, j, l, t);
  }

  /** From a minimum beyond the durable epoch to the compare-exchange. */
  lemma ToCas(g: Guards, who: Option<nat>, j: State, l: nat, m: State) returns (t: State)
    requires WellFormed(m) && l < |m.lg| && Reach(g, who, j, m) && (who.Some? ==> who.value == l)
    requires m.lg[l].phase.LSend? && m.lg[l].tld + 1 < m.lg[l].phase.min
    ensures Reach(g, who, j, t) && t == InPhase(m, l, LCas(m.dur, Least(m.lg, 1, m.lg[0].tld), m.lg[l].phase.min))
  {
    hide Reach;
    Here(g, who, m);
    t := Take(g, who, m, m, LogSend(l));
    t := Checks(g, who, m, l, t, t.lg[l].phase);
    t := Take(g, who, m, t, LogLoadDur(l));
    Join(g, who, j, m, t);
  }

  function NidsOf(batch: seq<Buffer>): seq<Nid> { if batch == [] then [] else batch[0].nids + NidsOf(batch[1..]) }

  function RingOf(ring: seq<NR.Bucket>, batch: seq<Buffer>): seq<NR.Bucket>
    decreases |batch|
  {
    if batch == [] then ring else RingOf(Passed(ring, batch[0]), batch[1..])
  }

  /** Every buffer belongs to a worker there is. */
  ghost predicate Owned(bufs: seq<Buffer>, n: nat) { forall i :: 0 <= i < |bufs| ==> bufs[i].w < n }

  ghost predicate Tidy(j: State, l: nat)
    requires l < |j.lg|
  {
    Owned(Batch(j.lg[l]), |j.wp|) && forall e :: e in j.lg[l].queue ==> Owned(j.lg[l].queue[e], |j.wp|)
  }

  /** Only logger `l` has moved, and it is now `lg`. */
  ghost predicate Now(j: State, t: State, l: nat, lg: Logger) {
    Quiet(j, t, l) && t.lg[l] == lg && t.dur == j.dur && t.pepoch == j.pepoch && t.notified == j.notified
  }

  lemma WritesNext(g: Guards, who: Option<nat>, j: State, l: nat, m: State) returns (t: State)
    requires WellFormed(m) && l < |m.lg| && Reach(g, who, j, m) && (who.Some? ==> who.value == l)
    requires m.lg[l].phase.LWriting? && m.lg[l].phase.batch != [] && m.lg[l].phase.batch[0].w < |m.wp|
    ensures Reach(g, who, j, t)
    ensures var lg, batch := m.lg[l], m.lg[l].phase.batch;
            Now(m, t, l, lg.(phase := LWriting(lg.phase.min, batch[1..]), file := lg.file + [batch[0]],
                pending := lg.pending + batch[0].nids,
                             ring := Passed(lg.ring, batch[0])))
  {
    hide Reach, Passed;
    t := Take(g, who, j, m, LogWrite(l));
  }

  lemma {:induction false} WritesOut(g: Guards, who: Option<nat>, j: State, l: nat, m: State) returns (t: State)
    requires WellFormed(m) && l < |m.lg| && Reach(g, who, j, m) && (who.Some? ==> who.value == l)
    requires m.lg[l].phase.LWriting? && Owned(m.lg[l].phase.batch, |m.wp|)
    ensures Reach(g, who, j, t)
    ensures var lg, batch := m.lg[l], m.lg[l].phase.batch;
            Now(m, t, l, lg.(phase := LSend(lg.phase.min), file := lg.file + batch,
                pending := lg.pending + NidsOf(batch),
                             ring := RingOf(lg.ring, batch)))
    decreases |m.lg[l].phase.batch|
  {
    hide Reach, Passed;
    var lg, batch := m.lg[l], m.lg[l].phase.batch;
    if batch == [] {
      t := Take(g, who, j, m, LogWrite(l));
      assert lg.file + batch == lg.file && lg.pending + [] == lg.pending;
    } else {
      t := WritesNext(g, who, j, l, m);
      t := WritesOut(g, who, j, l, t);
      assert lg.file + [batch[0]] + batch[1..] == lg.file + batch;
      assert lg.pending + batch[0].nids + NidsOf(batch[1..]) == lg.pending + NidsOf(batch);
    }
  }

  /** What a round dequeues. */
  function Drained(lg: Logger, deq: bool, ge: nat): seq<Buffer> { if deq then FlattenTo(lg.queue, ge + 1) else [] }

  lemma DrainedOwned(j: State, l: nat, deq: bool)
    requires l < |j.lg| && Tidy(j, l)
    ensures Owned(Drained(j.lg[l], deq, j.s.ge), |j.wp|)
  {
    var batch := Drained(j.lg[l], deq, j.s.ge);
    forall i | 0 <= i < |batch| ensures batch[i].w < |j.wp| {
      var e, k := PS.FlattenMember(j.lg[l].queue, j.s.ge + 1, i);
    }
  }

  /** The logger after dequeue and write. */
  function Sending(lg: Logger, deq: bool, ge: nat, min: nat): Logger {
    var batch := Drained(lg, deq, ge);
    lg.(phase := LSend(min), queue := if deq then map[]
        else lg.queue, file := lg.file + batch, pending := lg.pending + NidsOf(batch),
       ring := RingOf(lg.ring, batch))
  }

  lemma FromHave(g: Guards, who: Option<nat>, j: State, l: nat, m: State) returns (t: State)
    requires WellFormed(m) && l < |m.lg| && Reach(g, who, j, m) && (who.Some? ==> who.value == l)
    requires m.lg[l].phase.LHave? && Tidy(m, l)
    ensures Reach(g, who, j, t) && Now(m, t, l, Sending(m.lg[l], m.lg[l].phase.deq, m.s.ge, m.lg[l].phase.min))
  {
    hide Reach, FlattenTo;
    var lg := m.lg[l];
    DrainedOwned(m, l, lg.phase.deq);
    t := Take(g, who, j, m, LogDeq(l));
    if lg.phase.deq {
      t := WritesOut(g, who, j, l, t);
    } else {
      assert lg.file + [] == lg.file && lg.pending + [] == lg.pending;
    }
  }

  lemma FromQueue(g: Guards, who: Option<nat>, j: State, l: nat, m: State) returns (t: State)
    requires WellFormed(m) && l < |m.lg| && Reach(g, who, j, m) && (who.Some? ==> who.value == l)
    requires m.lg[l].phase.LQueue? && Tidy(m, l)
    ensures Reach(g, who, j, t)
    ensures Now(m, t, l, Sending(m.lg[l], m.lg[l].phase.deq, m.s.ge, QueueMin(m.lg[l].queue, m.lg[l].phase.min)))
  {
    hide Reach, FlattenTo;
    t := Take(g, who, j, m, LogQueueMin(l));
    t := FromHave(g, who, j, l, t);
  }

  /** A round up to its minimum, from an idle logger that finds one. */
  lemma ToSend(g: Guards, who: Option<nat>, j: State, l: nat, m: State, deq: bool) returns (t: State)
    requires WellFormed(m) && l < |m.lg| && Reach(g, who, j, m) && (who.Some? ==> who.value == l)
    requires m.lg[l].phase.LIdle? && (deq ==> m.lg[l].queue != map[]) && Tidy(m, l) && ScanMin(m, l, 0, 0) != 0
    requires g.started ==> Sees(m, l, 0, false)
    ensures Reach(g, who, j, t)
          && Now(m, t, l, Sending(m.lg[l], deq, m.s.ge, QueueMin(m.lg[l].queue, ScanMin(m, l, 0, 0))))
  {
    hide Reach, FlattenTo;
    Here(g, who, m);
    t := Take(g, who, m, m, LogStart(l, deq));
    t := Scans(g, who, m, l, t, LScan(0, 0, deq, false));
    t := FromQueue(g, who, m, l, t);
    Join(g, who, j, m, t);
  }

  /** The rest of the round. */
  lemma FromSend(g: Guards, who: Option<nat>, j: State, l: nat, m: State) returns (t: State)
    requires WellFormed(m) && l < |m.lg| && Reach(g, who, j, m) && (who.Some? ==> who.value == l)
          && m.lg[l].phase.LSend?
    ensures Reach(g, who, j, t)
    ensures var min := m.lg[l].phase.min;
            t == if m.lg[l].tld + 1 < min then Settled(InPhase(m, l, LCas(m.dur, Least(m.lg, 1, m.lg[0].tld), min)), l)
                else InPhase(m, l, LIdle)
  {
    hide Reach, Settled;
    if m.lg[l].tld + 1 < m.lg[l].phase.min {
      t := ToCas(g, who, j, l, m);
      t := Settles(g, who, j, l, t);
    } else {
      t := Take(g, who, j, m, LogSend(l));
    }
  }

  lemma SettledIs(j: State, l: nat)
    requires WellFormed(j) && l < |j.lg| && j.lg[l].phase.LCas?
    ensures Quiet(j, Settled(j, l), l)
    ensures var a, b, min := j.lg[l], Settled(j, l).lg[l], j.lg[l].phase.min;
            b.phase.LIdle? && b.queue == a.queue && b.file == a.file && b.tld == if min > 0 then min - 1 else 0
    ensures Settled(j, l).lg[l].ring == NR.Rotated(j.lg[l].ring, NR.DueCount(j.lg[l].ring, j.lg[l].phase.dl))
    ensures var ph := j.lg[l].phase; Settled(j, l).dur == if ph.seen < ph.dl && j.dur == ph.seen then ph.dl else j.dur
  {
    hide UpTo, Above, NR.Rotated, NR.DueCount, Told;
    var a := StepCas(j, l);
    ToldIs(if a.lg[l].phase.LPersist? then StepPersist(a, l) else a, l);
  }

  lemma ToldIs(j: State, l: nat)
    requires WellFormed(j) && l < |j.lg| && j.lg[l].phase.LNotify?
    ensures Quiet(j, Told(j, l), l) && Told(j, l).dur == j.dur
    ensures Told(j, l).lg[l].ring == NR.Rotated(j.lg[l].ring, NR.DueCount(j.lg[l].ring, j.lg[l].phase.dl))
    ensures var a, b, min := j.lg[l], Told(j, l).lg[l], j.lg[l].phase.min;
            b.phase.LIdle? && b.queue == a.queue && b.file == a.file && b.tld == if min > 0 then min - 1 else 0
  {
    hide UpTo, Above, NR.Rotated, NR.DueCount;
  }

  lemma {:induction false} EmptyMin(n: nat)
    ensures QueueMin(map[], n) == n
  {
    if n > 0 { EmptyMin(n - 1); }
  }

  /** Worker `w` alone logs to logger `l`, and its CTIDW is `e`. */
  ghost predicate Only(j: State, l: nat, w: nat, e: nat)
    requires WellFormed(j)
  {
    w < |j.wp| && j.loggerOf[w] == l
        && (forall u :: 0 <= u < |j.wp| && j.loggerOf[u] == l ==> u == w) && j.wp[w].ctidw == e != 0
  }

  lemma {:induction false} OnlyMin(j: State, l: nat, w: nat, e: nat, k: nat, min: nat)
    requires WellFormed(j) && Only(j, l, w, e) && min == if k <= w then 0 else e
    ensures ScanMin(j, l, k, min) == e
    decreases |j.wp| - k
  {
    if k < |j.wp| {
      OnlyMin(j, l, w, e, k + 1, if k + 1 <= w then 0 else e);
    }
  }

  /** One whole round of an idle logger with one worker. */
  lemma WholeRound(g: Guards, who: Option<nat>, j: State, l: nat, m: State, w: nat, e: nat,
                   deq: bool) returns (t: State)
    requires WellFormed(m) && l < |m.lg| && Reach(g, who, j, m) && (who.Some? ==> who.value == l) && Tidy(m, l)
          && Only(m, l, w, e)
    requires m.lg[l].phase.LIdle? && (deq ==> m.lg[l].queue != map[])
    ensures Reach(g, who, j, t) && Quiet(m, t, l) && t.lg[l].phase.LIdle?
    ensures t.lg[l].queue == if deq then map[] else m.lg[l].queue
    ensures t.lg[l].file == m.lg[l].file + Drained(m.lg[l], deq, m.s.ge)
    ensures t.dur == (var min, dl := QueueMin(m.lg[l].queue, e), Least(m.lg, 1, m.lg[0].tld);
                      if m.lg[l].tld + 1 < min && m.dur < dl then dl else m.dur)
    ensures t.lg[l].tld == (var min := QueueMin(m.lg[l].queue, e);
                            if m.lg[l].tld + 1 < min then min - 1 else m.lg[l].tld)
  {
    hide Reach, Tidy, Drained, Settled;
    OnlyMin(m, l, w, e, 0, 0);
    t := ToSend(g, who, j, l, m, deq);
    var s := t;
    t := FromSend(g, who, j, l, s);
    LeastSame(s.lg, m.lg, 1, m.lg[0].tld);
    SettledIs(InPhase(s, l, LCas(s.dur, Least(s.lg, 1, s.lg[0].tld), s.lg[l].phase.min)), l);
  }
}
