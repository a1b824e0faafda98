/**
  The logger's side of the pipeline: the scan for a minimum, writing, and the durable epochs.
 */
module PipeLogger {
  import opened Silo
  import opened SiloInv
  import opened SiloEpoch
  import opened Pipeline
  import NR = NidRing
  import opened PipeInv
  import opened PipeStep

  type State = PipeInv.State

  /** Logger `l` moves; workers, and what they still owe, do not. */
  ghost predicate LogStep(j: State, j': State, l: nat) {
    && WellFormed(j) && WellFormed(j') && l < |j.lg| == |j'.lg|
    && j'.s == j.s && j'.loggerOf == j.loggerOf && |j'.wp| == |j.wp|
    && (forall m :: 0 <= m < |j.lg| && m != l ==> j'.lg[m] == j.lg[m])
    && (forall w :: 0 <= w < |j.wp| ==> j'.wp[w] == j.wp[w].(pool := j'.wp[w].pool))
    && j.lg[l].tld <= j'.lg[l].tld
  }

  lemma LogAllFuture(j: State, j': State, l: nat, m: nat, n: nat, b: nat)
    requires LogStep(j, j', l) && AllFuture(j, m, n, b)
    ensures AllFuture(j', m, n, b)
  {
    forall w | 0 <= w < n && w < |j.wp| && j.loggerOf[w] == m ensures Future(j', w, b) {
      assert Future(j, w, b);
    }
  }

  lemma OtherLogger(j: State, j': State, l: nat, m: nat)
    requires LogStep(j, j', l) && m < |j.lg| && m != l && PQueue(j, m) && PMin(j, m)
    ensures PQueue(j', m) && PMin(j', m)
  {
    var g := j.lg[m];
    forall e, i | e in g.queue && 0 <= i < |g.queue[e]|
        ensures BufOk(j', m, g.queue[e][i]) && e <= Top(j', g.queue[e][i].w) {
      assert BufOk(j, m, g.queue[e][i]);
    }
    forall i | 0 <= i < |Batch(g)| ensures BufOk(j', m, Batch(g)[i]) {
      assert BufOk(j, m, Batch(g)[i]);
    }
    LogAllFuture(j, j', l, m, |j.wp|, g.tld + 1);
    if g.phase.LScan? {
      if g.phase.min != 0 { LogAllFuture(j, j', l, m, g.phase.k, g.phase.min); }
    } else if g.phase.LQueue? || Carries(g.phase) {
      LogAllFuture(j, j', l, m, |j.wp|, g.phase.min);
    }
  }

  /** A step of logger `l` keeps the invariant if it keeps its own part and the records. */
  lemma LogKeeps(j: State, j': State, l: nat)
    requires PInv(j) && LogStep(j, j', l)
    requires PQueue(j', l) && PMin(j', l)
    requires forall w :: 0 <= w < |j.wp| ==> PLog(j', w) && PIds(j', w)
    requires forall m :: 0 <= m < |j.lg| ==> PDur(j', m)
    requires NidsOk(j.s.order, j'.notified) && j'.pepoch <= j'.dur
    ensures PInv(j')
  {
    forall w | 0 <= w < |j'.wp| ensures PWork(j', w) && PLog(j', w) && PIds(j', w) {
      assert PWork(j, w);
    }
    forall m | 0 <= m < |j'.lg| ensures PQueue(j', m) && PMin(j', m) && PDur(j', m) {
      if m != l {
        assert PQueue(j, m) && PMin(j, m);
        OtherLogger(j, j', l, m);
      }
    }
  }

  // ---------------------------------------------------------------- steps that only move the phase

  /** The phase of logger `l` becomes `ph`; nothing else but DurableEpoch and its file moves. */
  ghost predicate PhaseStep(j: State, j': State, l: nat, ph: LPhase) {
    && WellFormed(j) && l < |j.lg| && j' == PutL(j, l, j.lg[l].(phase := ph)).(dur := j'.dur, pepoch := j'.pepoch)
    && !j.lg[l].phase.LWriting? && !ph.LWriting?
  }

  lemma PhaseLog(j: State, j': State, l: nat, ph: LPhase, w: nat)
    requires PhaseStep(j, j', l, ph) && w < |j.wp| && PLog(j, w) && PIds(j, w)
    ensures PLog(j', w) && PIds(j', w)
  {
    hide RecsOf, IdsOf, FlattenTo, WorkerLog;
    var m := j.loggerOf[w];
    assert InTransit(j'.lg[m], j.s.ge) == InTransit(j.lg[m], j.s.ge);
  }

  lemma PhaseQueue(j: State, j': State, l: nat, ph: LPhase)
    requires PhaseStep(j, j', l, ph) && PQueue(j, l)
    ensures PQueue(j', l)
  {
    var g := j.lg[l];
    forall e, i | e in g.queue && 0 <= i < |g.queue[e]|
        ensures BufOk(j', l, g.queue[e][i]) && e <= Top(j', g.queue[e][i].w) {
      assert BufOk(j, l, g.queue[e][i]);
    }
  }

  lemma PhaseKeeps(j: State, j': State, l: nat, ph: LPhase)
    requires PInv(j) && PhaseStep(j, j', l, ph) && PMin(j', l) && j'.pepoch <= j'.dur
    requires forall m :: 0 <= m < |j.lg| ==> PDur(j', m)
    ensures PInv(j')
  {
    assert PQueue(j, l);
    PhaseQueue(j, j', l, ph);
    forall w | 0 <= w < |j.wp| ensures PLog(j', w) && PIds(j', w) {
      assert PLog(j, w) && PIds(j, w);
      PhaseLog(j, j', l, ph, w);
    }
    LogKeeps(j, j', l);
  }

  /** The loggers' durable epochs do not move, and neither does DurableEpoch. */
  lemma SameDur(j: State, j': State, l: nat, ph: LPhase)
    requires PInv(j) && PhaseStep(j, j', l, ph) && j'.dur == j.dur
    requires PDur(j', l)
    ensures forall m :: 0 <= m < |j.lg| ==> PDur(j', m)
  {
    forall m | 0 <= m < |j.lg| ensures PDur(j', m) {
      assert PDur(j, m);
    }
  }

  lemma StartKeeps(j: State, l: nat, deq: bool)
    requires PInv(j) && l < |j.lg| && j.lg[l].phase.LIdle?
    ensures PInv(PutL(j, l, j.lg[l].(phase := LScan(0, 0, deq, false))))
  {
    var j' := PutL(j, l, j.lg[l].(phase := LScan(0, 0, deq, false)));
    assert PMin(j, l) && PDur(j, l);
    LogAllFuture(j, j', l, l, |j.wp|, j.lg[l].tld + 1);
    SameDur(j, j', l, LScan(0, 0, deq, false));
    PhaseKeeps(j, j', l, LScan(0, 0, deq, false));
  }

  /** Reading a worker's CTIDW bounds everything it has not yet published. */
  lemma CtidwBounds(j: State, w: nat)
    requires PInv(j) && w < |j.wp| && j.wp[w].ctidw != 0
    ensures Future(j, w, j.wp[w].ctidw)
  {
    assert PWork(j, w) && LagInv(j.s, w) && WInv(j.s, w);
  }

  /**
    A worker that has not stored CTIDW has nothing to publish, and its first record will be of the current
    epoch or later.
   */
  lemma ZeroBounds(j: State, w: nat, m: nat)
    requires PInv(j) && w < |j.wp| && j.wp[w].ctidw == 0 && m <= j.s.ge
    ensures Future(j, w, m)
  {
    assert PWork(j, w);
  }

  /** One more worker seen: the minimum so far bounds all the workers of this logger read so far. */
  lemma ScanBounds(j: State, l: nat, w: nat)
    requires PInv(j) && l < |j.lg| && j.lg[l].phase.LScan? && j.lg[l].phase.k < |j.wp| && !TakesLate(j, l)
    requires w <= j.lg[l].phase.k && w < |j.wp| && j.loggerOf[w] == l && StepScan(j, l).lg[l].phase.min != 0
    ensures Future(j, w, StepScan(j, l).lg[l].phase.min)
  {
    assert PMin(j, l);
    var ph := j.lg[l].phase;
    if w < ph.k {
      assert Future(j, w, ph.min);
    } else if j.wp[w].ctidw == 0 {
      ZeroBounds(j, w, ph.min);
    } else {
      CtidwBounds(j, w);
    }
  }

  lemma ScanCovers(j: State, l: nat)
    requires PInv(j) && l < |j.lg| && j.lg[l].phase.LScan? && j.lg[l].phase.k < |j.wp| && !TakesLate(j, l)
    ensures var j' := StepScan(j, l);
            j'.lg[l].phase.min == 0 || AllFuture(j', l, j.lg[l].phase.k + 1, j'.lg[l].phase.min)
  {
    var j' := StepScan(j, l);
    var min' := j'.lg[l].phase.min;
    if min' != 0 {
      forall w | 0 <= w < j.lg[l].phase.k + 1 && w < |j.wp| && j.loggerOf[w] == l ensures Future(j', w, min') {
        ScanBounds(j, l, w);
        assert Future(j, w, min');
      }
    }
  }

  lemma ScanMore(j: State, l: nat)
    requires PInv(j) && l < |j.lg| && j.lg[l].phase.LScan? && j.lg[l].phase.k < |j.wp| && !TakesLate(j, l)
    ensures PMin(StepScan(j, l), l)
  {
    var j' := StepScan(j, l);
    var g := j.lg[l];
    ScanCovers(j, l);
    assert PMin(j, l);
    LogAllFuture(j, j', l, l, |j.wp|, g.tld + 1);
    if g.phase.min != j'.lg[l].phase.min {
      CtidwBounds(j, g.phase.k);
    }
    hide PInv;
  }

  lemma ScanEnd(j: State, l: nat)
    requires PInv(j) && l < |j.lg| && j.lg[l].phase.LScan? && j.lg[l].phase.k >= |j.wp|
    ensures PMin(StepScan(j, l), l)
  {
    var j' := StepScan(j, l);
    assert PMin(j, l);
    var g, ph := j.lg[l], j.lg[l].phase;
    LogAllFuture(j, j', l, l, |j.wp|, g.tld + 1);
    if ph.min != 0 {
      LogAllFuture(j, j', l, l, ph.k, ph.min);
    }
  }

  lemma ScanKeeps(j: State, l: nat)
    requires PInv(j) && l < |j.lg| && j.lg[l].phase.LScan? && !TakesLate(j, l)
    ensures PInv(StepScan(j, l))
  {
    var j' := StepScan(j, l);
    if j.lg[l].phase.k < |j.wp| { ScanMore(j, l); } else { ScanEnd(j, l); }
    assert PDur(j, l);
    SameDur(j, j', l, j'.lg[l].phase);
    PhaseKeeps(j, j', l, j'.lg[l].phase);
  }

  lemma AllFutureDown(j: State, l: nat, n: nat, m: nat, m': nat)
    requires WellFormed(j) && AllFuture(j, l, n, m) && m' <= m
    ensures AllFuture(j, l, n, m')
  {
    forall w | 0 <= w < n && w < |j.wp| && j.loggerOf[w] == l ensures Future(j, w, m') {
      assert Future(j, w, m);
    }
  }

  lemma QueueMinKeeps(j: State, l: nat)
    requires PInv(j) && l < |j.lg| && j.lg[l].phase.LQueue?
    ensures PInv(StepQueueMin(j, l))
  {
    var j' := StepQueueMin(j, l);
    assert PMin(j, l) && PDur(j, l);
    var g, ph, ph' := j.lg[l], j.lg[l].phase, j'.lg[l].phase;
    AllFutureDown(j, l, |j.wp|, ph.min, ph'.min);
    LogAllFuture(j, j', l, l, |j.wp|, ph'.min);
    LogAllFuture(j, j', l, l, |j.wp|, g.tld + 1);
    SameDur(j, j', l, ph');
    PhaseKeeps(j, j', l, ph');
  }

  lemma CarryMin(j: State, j': State, l: nat, ph: LPhase)
    requires PInv(j) && PhaseStep(j, j', l, ph) && Carries(j.lg[l].phase)
    requires ph.LIdle? || (Carries(ph) && ph.min == j.lg[l].phase.min)
    requires Raising(ph) ==> j.lg[l].tld + 1 < ph.min
    ensures PMin(j', l)
  {
    assert PMin(j, l);
    LogAllFuture(j, j', l, l, |j.wp|, j.lg[l].tld + 1);
    LogAllFuture(j, j', l, l, |j.wp|, j.lg[l].phase.min);
  }

  lemma SendKeeps(j: State, l: nat)
    requires PInv(j) && l < |j.lg| && j.lg[l].phase.LSend?
    ensures PInv(StepSend(j, l))
  {
    var j' := StepSend(j, l);
    assert PDur(j, l);
    CarryMin(j, j', l, j'.lg[l].phase);
    SameDur(j, j', l, j'.lg[l].phase);
    PhaseKeeps(j, j', l, j'.lg[l].phase);
  }

  lemma CheckKeeps(j: State, l: nat)
    requires PInv(j) && l < |j.lg| && j.lg[l].phase.LCheck?
    ensures PInv(StepCheck(j, l))
  {
    var j' := StepCheck(j, l);
    assert PDur(j, l) && PMin(j, l);
    CarryMin(j, j', l, j'.lg[l].phase);
    SameDur(j, j', l, j'.lg[l].phase);
    PhaseKeeps(j, j', l, j'.lg[l].phase);
  }

  lemma LoadDurKeeps(j: State, l: nat)
    requires PInv(j) && l < |j.lg| && j.lg[l].phase.LDurable?
    ensures PInv(PutL(j, l, j.lg[l].(phase := LCas(j.dur, j.lg[l].phase.dl, j.lg[l].phase.min))))
  {
    var ph := LCas(j.dur, j.lg[l].phase.dl, j.lg[l].phase.min);
    var j' := PutL(j, l, j.lg[l].(phase := ph));
    assert PDur(j, l) && PMin(j, l);
    CarryMin(j, j', l, ph);
    SameDur(j, j', l, ph);
    PhaseKeeps(j, j', l, ph);
  }

  lemma CasKeeps(j: State, l: nat)
    requires PInv(j) && l < |j.lg| && j.lg[l].phase.LCas?
    ensures PInv(StepCas(j, l))
  {
    var j' := StepCas(j, l);
    assert PDur(j, l) && PMin(j, l);
    CarryMin(j, j', l, j'.lg[l].phase);
    forall m | 0 <= m < |j.lg| ensures PDur(j', m) {
      assert PDur(j, m);
    }
    PhaseKeeps(j, j', l, j'.lg[l].phase);
  }

  lemma PersistKeeps(j: State, l: nat)
    requires PInv(j) && l < |j.lg| && j.lg[l].phase.LPersist?
    ensures PInv(StepPersist(j, l))
  {
    var j' := StepPersist(j, l);
    assert PDur(j, l) && PMin(j, l);
    CarryMin(j, j', l, j'.lg[l].phase);
    SameDur(j, j', l, j'.lg[l].phase);
    PhaseKeeps(j, j', l, j'.lg[l].phase);
  }

  // ---------------------------------------------------------------- dequeue and write

  lemma DeqTransit(g: Logger, min: nat, ge: nat)
    requires g.phase.LHave?
    ensures InTransit(g.(phase := LWriting(min, FlattenTo(g.queue, ge + 1)), queue := map[]), ge) == InTransit(g, ge)
  {
    FlattenEmpty(ge + 1);
  }

  lemma {:induction false} FlattenEmpty(n: nat)
    ensures FlattenTo(map[], n) == []
  {
    if n > 0 { FlattenEmpty(n - 1); }
  }

  lemma DeqQueue(j: State, l: nat)
    requires PInv(j) && l < |j.lg| && j.lg[l].phase.LHave? && j.lg[l].phase.deq
    ensures PQueue(StepDeq(j, l), l) && QueueFrom(StepDeq(j, l).lg[l], j.lg[l].phase.min)
  {
    var j', g := StepDeq(j, l), j.lg[l];
    assert PQueue(j, l) && PMin(j, l);
    forall i | 0 <= i < |Batch(j'.lg[l])|
      ensures BufOk(j', l, Batch(j'.lg[l])[i]) && g.tld < Batch(j'.lg[l])[i].epoch
            && g.phase.min <= Batch(j'.lg[l])[i].epoch
    {
      var e, k := FlattenMember(g.queue, j.s.ge + 1, i);
      assert BufOk(j, l, g.queue[e][k]);
    }
  }

  lemma DeqLog(j: State, l: nat, w: nat)
    requires WellFormed(j) && l < |j.lg| && j.lg[l].phase.LHave? && j.lg[l].phase.deq && w < |j.wp| && PLog(j, w)
          && PIds(j, w)
    ensures PLog(StepDeq(j, l), w) && PIds(StepDeq(j, l), w)
  {
    hide RecsOf, IdsOf, FlattenTo, WorkerLog, InTransit;
    DeqTransit(j.lg[l], j.lg[l].phase.min, j.s.ge);
  }

  lemma DeqAllKeeps(j: State, l: nat)
    requires PInv(j) && l < |j.lg| && j.lg[l].phase.LHave? && j.lg[l].phase.deq
    ensures PInv(StepDeq(j, l))
  {
    var j', g := StepDeq(j, l), j.lg[l];
    assert PMin(j, l);
    DeqQueue(j, l);
    LogAllFuture(j, j', l, l, |j.wp|, g.tld + 1);
    LogAllFuture(j, j', l, l, |j.wp|, g.phase.min);
    forall w | 0 <= w < |j.wp| ensures PLog(j', w) && PIds(j', w) {
      assert PLog(j, w) && PIds(j, w);
      DeqLog(j, l, w);
    }
    forall m | 0 <= m < |j.lg| ensures PDur(j', m) {
      assert PDur(j, m);
    }
    LogKeeps(j, j', l);
  }

  lemma DeqKeeps(j: State, l: nat)
    requires PInv(j) && l < |j.lg| && j.lg[l].phase.LHave?
    ensures PInv(StepDeq(j, l))
  {
    if j.lg[l].phase.deq {
      DeqAllKeeps(j, l);
    } else {
      var j' := StepDeq(j, l);
      assert PMin(j, l) && PDur(j, l);
      CarryMin(j, j', l, j'.lg[l].phase);
      SameDur(j, j', l, j'.lg[l].phase);
      PhaseKeeps(j, j', l, j'.lg[l].phase);
    }
  }

  /** The next buffer of a batch. */
  ghost predicate Writes1(j: State, l: nat) {
    PInv(j) && l < |j.lg| && j.lg[l].phase.LWriting? && j.lg[l].phase.batch != []
  }

  lemma WriteTransit(g: Logger, ge: nat, u: nat)
    requires g.phase.LWriting? && g.phase.batch != []
    ensures var b := g.phase.batch[0];
            var g' := g.(phase := LWriting(g.phase.min, g.phase.batch[1..]), file := g.file + [b],
                pending := g.pending + b.nids,
                        ring := Passed(g.ring, b));
            && RecsOf(g'.file, u) + RecsOf(InTransit(g', ge), u) == RecsOf(g.file, u) + RecsOf(InTransit(g, ge), u)
            && IdsOf(InTransit(g, ge), u) == IdOf(b, u) + IdsOf(InTransit(g', ge), u)
  {
    hide RecsOf, IdsOf, FlattenTo;
    var b := g.phase.batch[0];
    var g' := g.(phase := LWriting(g.phase.min, g.phase.batch[1..]), file := g.file + [b],
        pending := g.pending + b.nids,
                        ring := Passed(g.ring, b));
    assert InTransit(g, ge) == [b] + InTransit(g', ge);
    RecsConcat([b], InTransit(g', ge), u);
    RecsConcat(g.file, [b], u);
    RecsOne(b, u);
  }

  lemma WriteLog(j: State, l: nat, u: nat)
    requires WellFormed(j) && l < |j.lg| && j.lg[l].phase.LWriting? && j.lg[l].phase.batch != []
    requires var b := j.lg[l].phase.batch[0]; b.w < |j.wp| && j.loggerOf[b.w] == l
    requires u < |j.wp| && PLog(j, u) && PIds(j, u)
    ensures PLog(StepWrite(j, l), u) && PIds(StepWrite(j, l), u)
  {
    hide RecsOf, IdsOf, FlattenTo, WorkerLog, InTransit;
    if j.loggerOf[u] == l {
      WriteTransit(j.lg[l], j.s.ge, u);
    }
  }

  lemma WriteQueue(j: State, l: nat)
    requires Writes1(j, l)
    ensures j.lg[l].phase.batch[0].w < |j.wp| && j.loggerOf[j.lg[l].phase.batch[0].w] == l
    ensures PQueue(StepWrite(j, l), l) && QueueFrom(StepWrite(j, l).lg[l], j.lg[l].phase.min)
  {
    assert PQueue(j, l) && PMin(j, l);
    var g := j.lg[l];
    assert Batch(g)[0] == g.phase.batch[0] && BufOk(j, l, Batch(g)[0]);
    var j' := StepWrite(j, l);
    var g' := j'.lg[l];
    forall i | 0 <= i < |Batch(g')| ensures Batch(g')[i] == Batch(g)[i + 1] && BufOk(j', l, Batch(g')[i]) {
      assert BufOk(j, l, Batch(g)[i + 1]);
    }
    forall e, i | e in g.queue && 0 <= i < |g.queue[e]|
        ensures BufOk(j', l, g.queue[e][i]) && e <= Top(j', g.queue[e][i].w) {
      assert BufOk(j, l, g.queue[e][i]);
    }
    forall i | 0 <= i < |g'.pending| ensures NidOk(j.s.order, g'.pending[i]) {
      if i < |g.pending| {
        assert NidOk(j.s.order, g.pending[i]);
      } else {
        assert NidOk(j.s.order, g.phase.batch[0].nids[i - |g.pending|]);
      }
    }
  }

  lemma {:induction false} WriteMin(j: State, l: nat)
    requires PInv(j) && l < |j.lg| && j.lg[l].phase.LWriting?
          && (j.lg[l].phase.batch != [] ==> j.lg[l].phase.batch[0].w < |j.wp|)
    requires QueueFrom(StepWrite(j, l).lg[l], j.lg[l].phase.min)
    ensures PMin(StepWrite(j, l), l)
    ensures forall m :: 0 <= m < |j.lg| ==> PDur(StepWrite(j, l), m)
  {
    var j', g := StepWrite(j, l), j.lg[l];
    assert PMin(j, l);
    LogAllFuture(j, j', l, l, |j.wp|, g.tld + 1);
    LogAllFuture(j, j', l, l, |j.wp|, g.phase.min);
    forall m | 0 <= m < |j.lg| ensures PDur(j', m) {
      assert PDur(j, m);
    }
  }

  lemma WriteKeeps(j: State, l: nat)
    requires PInv(j) && l < |j.lg| && j.lg[l].phase.LWriting?
          && (j.lg[l].phase.batch != [] ==> j.lg[l].phase.batch[0].w < |j.wp|)
    ensures PInv(StepWrite(j, l))
  {
    if j.lg[l].phase.batch == [] {
      WriteDone(j, l);
    } else {
      WriteQueue(j, l);
      WriteMin(j, l);
      forall w | 0 <= w < |j.wp| ensures PLog(StepWrite(j, l), w) && PIds(StepWrite(j, l), w) {
        assert PLog(j, w) && PIds(j, w);
        WriteLog(j, l, w);
      }
      WriteIsLogStep(j, l);
      hide StepWrite, PLog, PIds, PQueue, PMin, PDur;
      LogKeeps(j, StepWrite(j, l), l);
    }
  }

  lemma WriteIsLogStep(j: State, l: nat)
    requires WellFormed(j) && l < |j.lg| && j.lg[l].phase.LWriting? && j.lg[l].phase.batch != []
          && j.lg[l].phase.batch[0].w < |j.wp|
    ensures LogStep(j, StepWrite(j, l), l) && StepWrite(j, l).notified == j.notified && StepWrite(j, l).s == j.s
  {
  }

  lemma WriteDone(j: State, l: nat)
    requires PInv(j) && l < |j.lg| && j.lg[l].phase.LWriting? && j.lg[l].phase.batch == []
    ensures PInv(StepWrite(j, l))
  {
    var j', g := StepWrite(j, l), j.lg[l];
    assert PQueue(j, l) && PMin(j, l);
    WriteMin(j, l);
    forall e, i | e in g.queue && 0 <= i < |g.queue[e]|
        ensures BufOk(j', l, g.queue[e][i]) && e <= Top(j', g.queue[e][i].w) {
      assert BufOk(j, l, g.queue[e][i]);
    }
    forall w | 0 <= w < |j.wp| ensures PLog(j', w) && PIds(j', w) {
      hide RecsOf, IdsOf, FlattenTo, WorkerLog;
      assert PLog(j, w) && PIds(j, w);
      assert InTransit(j'.lg[l], j.s.ge) == InTransit(g, j.s.ge);
    }
    LogKeeps(j, j', l);
  }

  // ---------------------------------------------------------------- notification and the new durable epoch

  lemma {:induction false} UpToIn(ids: seq<Nid>, d: nat, i: nat)
    requires i < |UpTo(ids, d)|
    ensures UpTo(ids, d)[i].epoch <= d && UpTo(ids, d)[i] in ids
  {
    if ids[0].epoch <= d {
      if i > 0 { UpToIn(ids[1..], d, i - 1); }
    } else {
      UpToIn(ids[1..], d, i);
    }
  }

  lemma {:induction false} AboveIn(ids: seq<Nid>, d: nat, i: nat)
    requires i < |Above(ids, d)|
    ensures Above(ids, d)[i].epoch > d && Above(ids, d)[i] in ids
  {
    if ids[0].epoch <= d {
      AboveIn(ids[1..], d, i);
    } else {
      if i > 0 { AboveIn(ids[1..], d, i - 1); }
    }
  }

  /** Both parts of the ids that wait are committed ones, and those told are of epochs up to `d`. */
  lemma PartsOk(order: seq<Entry>, ids: seq<Nid>, d: nat)
    requires NidsOk(order, ids)
    ensures NidsOk(order, Above(ids, d)) && NidsOk(order, UpTo(ids, d))
    ensures forall i :: 0 <= i < |UpTo(ids, d)| ==> UpTo(ids, d)[i].epoch <= d
  {
    forall i | 0 <= i < |Above(ids, d)| ensures NidOk(order, Above(ids, d)[i]) {
      AboveIn(ids, d, i);
    }
    forall i | 0 <= i < |UpTo(ids, d)| ensures NidOk(order, UpTo(ids, d)[i]) && UpTo(ids, d)[i].epoch <= d {
      UpToIn(ids, d, i);
    }
  }

  lemma NotifyNids(j: State, l: nat)
    requires PInv(j) && l < |j.lg| && j.lg[l].phase.LNotify?
    ensures NidsOk(j.s.order, Above(j.lg[l].pending, j.lg[l].phase.dl))
    ensures NidsOk(j.s.order, StepNotify(j, l).notified)
    ensures forall m, i :: 0 <= m < |j.lg| && 0 <= i < |StepNotify(j, l).notified| ==>
          StepNotify(j, l).notified[i].epoch <= j.lg[m].tld
  {
    assert PQueue(j, l) && PDur(j, l);
    var told, j' := UpTo(j.lg[l].pending, j.lg[l].phase.dl), StepNotify(j, l);
    PartsOk(j.s.order, j.lg[l].pending, j.lg[l].phase.dl);
    assert j'.notified == j.notified + told;
    forall m, i | 0 <= m < |j.lg| && 0 <= i < |j'.notified| ensures j'.notified[i].epoch <= j.lg[m].tld {
      assert PDur(j, m);
    }
    hide PInv, UpTo, Above, StepNotify, NidOk;
  }

  /** Logger `l` changes only its phase, what it has to tell and its durable epoch. */
  ghost predicate TailStep(j: State, j': State, l: nat) {
    && WellFormed(j) && l < |j.lg| == |j'.lg|
    && j' == PutL(j, l, j.lg[l].(phase := j'.lg[l].phase, pending := j'.lg[l].pending, ring := j'.lg[l].ring,
        tld := j'.lg[l].tld)).(notified := j'.notified)
    && !j.lg[l].phase.LWriting? && !j'.lg[l].phase.LWriting? && j.lg[l].tld <= j'.lg[l].tld
  }

  lemma TailKeeps(j: State, j': State, l: nat)
    requires PInv(j) && TailStep(j, j', l)
    requires PMin(j', l) && (forall m :: 0 <= m < |j.lg| ==> PDur(j', m)) && NidsOk(j.s.order, j'.notified)
    requires NidsOk(j.s.order, j'.lg[l].pending) && (forall e :: e in j.lg[l].queue ==> j'.lg[l].tld < e)
    ensures PInv(j')
  {
    assert PQueue(j, l);
    var g := j.lg[l];
    forall e, i | e in g.queue && 0 <= i < |g.queue[e]|
        ensures BufOk(j', l, g.queue[e][i]) && e <= Top(j', g.queue[e][i].w) {
      assert BufOk(j, l, g.queue[e][i]);
    }
    forall w | 0 <= w < |j.wp| ensures PLog(j', w) && PIds(j', w) {
      hide RecsOf, IdsOf, FlattenTo, WorkerLog;
      assert PLog(j, w) && PIds(j, w);
      assert InTransit(j'.lg[l], j.s.ge) == InTransit(g, j.s.ge);
    }
    LogKeeps(j, j', l);
  }

  lemma NotifyTail(j: State, l: nat)
    requires WellFormed(j) && l < |j.lg| && j.lg[l].phase.LNotify?
    ensures TailStep(j, StepNotify(j, l), l) && LogStep(j, StepNotify(j, l), l)
  {
    hide UpTo, Above, NR.Rotated, NR.DueCount;
  }

  lemma NotifyMin(j: State, l: nat)
    requires PInv(j) && l < |j.lg| && j.lg[l].phase.LNotify?
    ensures PMin(StepNotify(j, l), l)
  {
    hide UpTo, Above, NR.Rotated, NR.DueCount;
    var j', g := StepNotify(j, l), j.lg[l];
    NotifyTail(j, l);
    assert PMin(j, l);
    LogAllFuture(j, j', l, l, |j.wp|, g.tld + 1);
    LogAllFuture(j, j', l, l, |j.wp|, g.phase.min);
  }

  lemma NotifyDur(j: State, l: nat, m: nat)
    requires PInv(j) && l < |j.lg| && j.lg[l].phase.LNotify? && m < |j.lg|
    ensures PDur(StepNotify(j, l), m)
  {
    assert PDur(j, m);
    NotifyNids(j, l);
    hide PInv, UpTo, Above, NR.Rotated, NR.DueCount;
  }

  lemma NotifyKeeps(j: State, l: nat)
    requires PInv(j) && l < |j.lg| && j.lg[l].phase.LNotify?
    ensures PInv(StepNotify(j, l))
  {
    var j' := StepNotify(j, l);
    NotifyNids(j, l);
    NotifyTail(j, l);
    NotifyMin(j, l);
    assert PQueue(j, l);
    forall m | 0 <= m < |j.lg| ensures PDur(j', m) {
      NotifyDur(j, l, m);
    }
    hide PInv, UpTo, Above, NR.Rotated, NR.DueCount, PMin, PDur, NidsOk;
    TailKeeps(j, j', l);
  }

  /** The new durable epoch is sound: everything up to it is in the file, and nothing up to it will come. */
  lemma StoreKeeps(j: State, l: nat)
    requires PInv(j) && l < |j.lg| && j.lg[l].phase.LStore?
    ensures PInv(StepStore(j, l))
  {
    var j', g := StepStore(j, l), j.lg[l];
    assert PMin(j, l) && PQueue(j, l);
    LogAllFuture(j, j', l, l, |j.wp|, g.phase.min);
    forall m | 0 <= m < |j.lg| ensures PDur(j', m) {
      assert PDur(j, m);
    }
    TailKeeps(j, j', l);
  }
}
