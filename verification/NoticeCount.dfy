/**
  Every commit is told once.  The notification id of a transaction is made when wal pushes its records and is
  from then on in exactly one place: the worker's current buffer, the queue or the batch of its logger, the ids
  that wait there, or the client's notices (server/enclave/silo_cc/silo_log_buffer.cpp push and pass_nid,
  silo_logger.cpp, silo_notifier.cpp).
 */
module NoticeCount {
  import opened Base
  import opened Silo
  import opened SiloInv
  import P = Pipeline
  import opened Pipeline
  import NR = NidRing
  import opened PipeInv
  import opened PipeWork
  import opened PipeStep
  import PipeLogger
  import SiloEpoch
  import opened PipeTheorems

  type State = PipeInv.State

  // ---------------------------------------------------------------- where an id is

  function InBuffers(bufs: seq<Buffer>, x: Nid): nat {
    if bufs == [] then 0 else InBuffers(bufs[..|bufs| - 1], x) + multiset(bufs[|bufs| - 1].nids)[x]
  }

  function AtLogger(g: Logger, ge: nat, x: Nid): nat { InBuffers(InTransit(g, ge), x) + multiset(g.pending)[x] }
  function AtWorker(p: WPipe, x: Nid): nat { if p.cur.Some? then multiset(p.cur.value.nids)[x] else 0 }

  function AtLoggers(lg: seq<Logger>, ge: nat, x: Nid): nat {
    if lg == [] then 0 else AtLoggers(lg[..|lg| - 1], ge, x) + AtLogger(lg[|lg| - 1], ge, x)
  }

  function AtWorkers(wp: seq<WPipe>, x: Nid): nat {
    if wp == [] then 0 else AtWorkers(wp[..|wp| - 1], x) + AtWorker(wp[|wp| - 1], x)
  }

  /** In how many places id `x` is. */
  function Places(j: State, x: Nid): nat {
    multiset(j.notified)[x] + AtLoggers(j.lg, j.s.ge, x) + AtWorkers(j.wp, x)
  }

  /** Worker `w`'s wal call has yet to push the transaction at `p`. */
  predicate ToPush(j: State, w: nat, p: nat) {
    w < |j.s.workers| && w < |j.wp| && j.s.workers[w].phase.Logging? && !j.wp[w].pushed && j.s.workers[w].pos == p
  }

  /** A client is to be told `x`: a transaction with a write committed in that epoch, and wal has pushed it. */
  predicate Owed(j: State, x: Nid) {
    && x.p < |j.s.order| && j.s.order[x.p].status.Committed? && j.s.order[x.p].wset != []
    && j.s.order[x.p].ver.epoch == x.epoch && !ToPush(j, j.s.order[x.p].w, x.p)
  }

  // ---------------------------------------------------------------- sums

  lemma {:induction false} CountSplit(a: seq<Buffer>, b: seq<Buffer>, x: Nid)
    ensures InBuffers(a + b, x) == InBuffers(a, x) + InBuffers(b, x)
  {
    if b == [] {
      assert a + b == a;
    } else {
      CountSplit(a, b[..|b| - 1], x);
      assert (a + b)[..|a + b| - 1] == a + b[..|b| - 1];
      assert (a + b)[|a + b| - 1] == b[|b| - 1];
    }
  }

  lemma CountOne(b: Buffer, x: Nid)
    ensures InBuffers([b], x) == multiset(b.nids)[x]
  {
    assert [b][..0] == [];
  }

  lemma {:induction false} LoggerMoves(lg: seq<Logger>, l: nat, g: Logger, ge: nat, x: Nid)
    requires l < |lg|
    ensures AtLoggers(lg[l := g], ge, x) + AtLogger(lg[l], ge, x) == AtLoggers(lg, ge, x) + AtLogger(g, ge, x)
  {
    hide AtLogger;
    var n := |lg| - 1;
    if l < n {
      LoggerMoves(lg[..n], l, g, ge, x);
      assert lg[l := g][..n] == lg[..n][l := g];
    } else {
      assert lg[l := g][..n] == lg[..n];
    }
  }

  lemma {:induction false} WorkerMoves(wp: seq<WPipe>, w: nat, p: WPipe, x: Nid)
    requires w < |wp|
    ensures AtWorkers(wp[w := p], x) + AtWorker(wp[w], x) == AtWorkers(wp, x) + AtWorker(p, x)
  {
    hide AtWorker;
    var n := |wp| - 1;
    if w < n {
      WorkerMoves(wp[..n], w, p, x);
      assert wp[w := p][..n] == wp[..n][w := p];
    } else {
      assert wp[w := p][..n] == wp[..n];
    }
  }

  /** When GlobalEpoch moves on, nothing queued is for the new epoch yet. */
  lemma {:induction false} EpochMoves(lg: seq<Logger>, ge: nat, ge': nat, x: Nid)
    requires ge <= ge' && forall l, e :: 0 <= l < |lg| && e in lg[l].queue ==> e <= ge
    ensures AtLoggers(lg, ge', x) == AtLoggers(lg, ge, x)
  {
    if lg != [] {
      var g := lg[|lg| - 1];
      EpochMoves(lg[..|lg| - 1], ge, ge', x);
      FlattenSame(g.queue, ge + 1, ge' + 1);
    }
  }

  /** A queued buffer counts once, whichever bucket it is in. */
  lemma {:induction false} EnqCount(q: map<nat, seq<Buffer>>, b: Buffer, n: nat, x: Nid)
    ensures InBuffers(FlattenTo(Enq(q, b), n), x)
            == InBuffers(FlattenTo(q, n), x) + if b.epoch < n then multiset(b.nids)[x] else 0
  {
    if n > 0 {
      EnqCount(q, b, n - 1, x);
      var was, now := At(q, n - 1), At(Enq(q, b), n - 1);
      CountSplit(FlattenTo(q, n - 1), was, x);
      CountSplit(FlattenTo(Enq(q, b), n - 1), now, x);
      if b.epoch == n - 1 {
        CountSplit(was, [b], x);
        CountOne(b, x);
      }
    }
  }

  // ---------------------------------------------------------------- the steps

  lemma ReadyCounts(j: State, w: nat, x: Nid)
    requires w < |j.wp| && j.wp[w].pool != [] && j.wp[w].cur.None?
    ensures Places(StepReady(j, w), x) == Places(j, x)
  {
    hide AtLoggers, AtWorkers;
    WorkerMoves(j.wp, w, StepReady(j, w).wp[w], x);
  }

  lemma PublishCounts(j: State, w: nat, x: Nid)
    requires WellFormed(j) && w < |j.wp| && j.wp[w].cur.Some? && j.wp[w].cur.value.epoch <= j.s.ge
    ensures Places(StepPublish(j, w), x) == Places(j, x)
  {
    hide AtLoggers, AtWorkers, InBuffers, FlattenTo, Enq;
    var j', l, b := StepPublish(j, w), j.loggerOf[w], j.wp[w].cur.value;
    var g, g' := j.lg[l], j'.lg[l];
    WorkerMoves(j.wp, w, j'.wp[w], x);
    LoggerMoves(j.lg, l, g', j.s.ge, x);
    EnqCount(g.queue, b, j.s.ge + 1, x);
    CountSplit(Batch(g), FlattenTo(g.queue, j.s.ge + 1), x);
    CountSplit(Batch(g'), FlattenTo(g'.queue, j.s.ge + 1), x);
  }

  /** The id wal makes for worker `w`'s transaction, if it has anything to write. */
  predicate Makes(j: State, w: nat, x: Nid)
    requires w < |j.s.workers|
  {
    var k := j.s.workers[w];
    k.wset != [] && x == Nid(k.pos, k.mrc.epoch)
  }

  lemma PushCounts(j: State, w: nat, x: Nid)
    requires WellFormed(j) && w < |j.wp| && EnPush(j, w)
    ensures Places(StepPush(j, w), x) == Places(j, x) + if Makes(j, w, x) then 1 else 0
  {
    hide AtLoggers, AtWorkers;
    var j' := StepPush(j, w);
    WorkerMoves(j.wp, w, j'.wp[w], x);
  }

  lemma DeqCounts(j: State, l: nat, x: Nid)
    requires l < |j.lg| && j.lg[l].phase.LHave?
    ensures Places(StepDeq(j, l), x) == Places(j, x)
  {
    hide AtLoggers, AtWorkers, InBuffers, FlattenTo;
    var g, j' := j.lg[l], StepDeq(j, l);
    PipeLogger.FlattenEmpty(j.s.ge + 1);
    assert InTransit(j'.lg[l], j.s.ge) == InTransit(g, j.s.ge);
    LoggerMoves(j.lg, l, j'.lg[l], j.s.ge, x);
  }

  lemma WriteCounts(j: State, l: nat, x: Nid)
    requires l < |j.lg| && j.lg[l].phase.LWriting?
    requires j.lg[l].phase.batch != [] ==> j.lg[l].phase.batch[0].w < |j.wp|
    ensures Places(StepWrite(j, l), x) == Places(j, x)
  {
    hide AtLoggers, AtWorkers, InBuffers, FlattenTo;
    var g, j' := j.lg[l], StepWrite(j, l);
    var queued := FlattenTo(g.queue, j.s.ge + 1);
    LoggerMoves(j.lg, l, j'.lg[l], j.s.ge, x);
    CountSplit(Batch(g), queued, x);
    CountSplit(Batch(j'.lg[l]), queued, x);
    if Batch(g) != [] {
      var b := Batch(g)[0];
      WorkerMoves(j.wp, b.w, j'.wp[b.w], x);
      assert Batch(g) == [b] + Batch(g)[1..];
      CountSplit([b], Batch(g)[1..], x);
      CountOne(b, x);
    }
  }

  lemma {:induction false} TellSplits(ids: seq<Nid>, d: nat, x: Nid)
    ensures multiset(UpTo(ids, d))[x] + multiset(Above(ids, d))[x] == multiset(ids)[x]
  {
    if ids != [] {
      TellSplits(ids[1..], d, x);
      assert ids == [ids[0]] + ids[1..];
    }
  }

  lemma NotifyCounts(j: State, l: nat, x: Nid)
    requires l < |j.lg| && j.lg[l].phase.LNotify?
    ensures Places(StepNotify(j, l), x) == Places(j, x)
  {
    hide AtLoggers, AtWorkers, UpTo, Above, InBuffers, FlattenTo, NR.Rotated, NR.DueCount;
    TellSplits(j.lg[l].pending, j.lg[l].phase.dl, x);
    assert InTransit(StepNotify(j, l).lg[l], j.s.ge) == InTransit(j.lg[l], j.s.ge);
    LoggerMoves(j.lg, l, StepNotify(j, l).lg[l], j.s.ge, x);
  }

  /** A logger step that only moves the phase. */
  predicate OnlyPhase(e: P.Event) {
    || e.LogStart? || e.LogScan? || e.LogQueueMin? || e.LogSend? || e.LogCheck? || e.LogLoadDur? || e.LogCas?
    || e.LogPersist? || e.LogStore?
  }

  lemma PhaseCounts(g: Guards, j: State, e: P.Event, x: Nid)
    requires P.Enabled(g, j, e) && OnlyPhase(e)
    ensures Places(P.Step(g, j, e), x) == Places(j, x)
  {
    hide AtLoggers, AtWorkers, InBuffers, FlattenTo, QueueMin;
    var l, j' := e.l, P.Step(g, j, e);
    assert j'.notified == j.notified && j'.wp == j.wp && j'.s == j.s && j'.lg == j.lg[l := j'.lg[l]];
    LoggerMoves(j.lg, l, j'.lg[l], j.s.ge, x);
    assert Batch(j'.lg[l]) == Batch(j.lg[l]);
  }

  /** A protocol step, with or without the end of wal. */
  lemma ProtocolCounts(g: Guards, j: State, e: P.Event, x: Nid)
    requires PInv(j) && P.Enabled(g, j, e) && (e.Work? || e.WalDone?)
    ensures Places(P.Step(g, j, e), x) == Places(j, x)
  {
    var se := if e.Work? then e.e else Logged(e.w);
    var j' := P.Step(g, j, e);
    EpochsRise(j.s, se, se.w);
    forall l, k | 0 <= l < |j.lg| && k in j.lg[l].queue ensures k <= j.s.ge {
      assert PQueue(j, l);
    }
    hide AtLoggers, AtWorkers, PInv, Silo.Step, Silo.Enabled;
    EpochMoves(j.lg, j.s.ge, j'.s.ge, x);
    if e.WalDone? { WorkerMoves(j.wp, e.w, j'.wp[e.w], x); }
  }

  lemma RaiseCounts(j: State, w: nat, x: Nid)
    requires WellFormed(j) && w < |j.wp|
    ensures Places(StepRaise(j, w), x) == Places(j, x)
  {
    hide AtLoggers, AtWorkers;
    WorkerMoves(j.wp, w, StepRaise(j, w).wp[w], x);
  }

  lemma BufferEpoch(j: State, w: nat)
    requires PInv(j) && w < |j.wp| && EnPublish(j, w)
    ensures j.wp[w].cur.value.epoch <= j.s.ge
  {
    assert PWork(j, w) && SiloEpoch.LagInv(j.s, w);
  }

  lemma StepCounts(g: Guards, j: State, e: P.Event, x: Nid)
    requires PInv(j) && P.Enabled(g, j, e)
    ensures Places(P.Step(g, j, e), x) == Places(j, x) + if e.Push? && Makes(j, e.w, x) then 1 else 0
  {
    hide Places, PInv, Silo.Enabled, Silo.Step, SiloEpoch.EpochInv;
    match e
    case Work(_) => ProtocolCounts(g, j, e, x);
    case WalDone(_) => ProtocolCounts(g, j, e, x);
    case Ready(w) => ReadyCounts(j, w, x);
    case Publish(w) =>
      BufferEpoch(j, w);
      PublishCounts(j, w, x);
    case Push(w) => PushCounts(j, w, x);
    case Raise(w) => RaiseCounts(j, w, x);
    case LogDeq(l) => DeqCounts(j, l, x);
    case LogWrite(l) => WriteCounts(j, l, x);
    case LogNotify(l) => NotifyCounts(j, l, x);
    case _ => PhaseCounts(g, j, e, x);
  }

  // ---------------------------------------------------------------- what is owed

  /** What a protocol step means to entry `p`: what it commits, it has yet to log. */
  lemma EntryMoves(j: State, se: Silo.Event, p: nat)
    requires PInv(j) && Silo.Enabled(j.s, se) && se.w < |j.wp| && (se.Logged? ==> j.wp[se.w].pushed)
    ensures var s, s' := j.s, Silo.Step(j.s, se);
            && |s.order| <= |s'.order| && |s'.workers| == |s.workers|
            && (p < |s.order| && s.order[p].status.Committed? ==> s'.order[p] == s.order[p])
            && (p < |s'.order| && s'.order[p].status.Committed? ==>
                (p < |s.order| && s'.order[p] == s.order[p])
                || (se.Commit? && p == s'.workers[se.w].pos && s'.order[p].w == se.w))
            && (p < |s.order| && se.Commit? && p == s'.workers[se.w].pos ==> s.order[p].status.Pending?)
  {
    assert WInv(j.s, se.w);
    StepOrder(j.s, se);
    SiloEpoch.OthersKept(j.s, se);
    hide PInv, Inv, SiloEpoch.EpochInv, Silo.Enabled;
  }

  /** The worker of a protocol step: it enters wal by a commit, unpushed, and leaves it pushed. */
  lemma WalMoves(j: State, se: Silo.Event)
    requires PInv(j) && Silo.Enabled(j.s, se) && se.w < |j.wp|
    ensures se.w < |Silo.Step(j.s, se).workers|
    ensures var k, k' := j.s.workers[se.w], Silo.Step(j.s, se).workers[se.w];
            && (k'.phase.Logging? <==> (k.phase.Logging? && k' == k) || se.Commit?)
            && (se.Commit? ==> k'.pos == k.pos && !j.wp[se.w].pushed && !k.phase.Logging?)
            && (k.phase.Logging? <==> se.Logged?)
  {
    assert PWork(j, se.w);
    LoggingMove(j.s, se);
    hide PInv, Inv, SiloEpoch.EpochInv;
  }

  /** A protocol step owes nothing new. */
  lemma ProtocolOwes(g: Guards, j: State, e: P.Event, x: Nid)
    requires PInv(j) && P.Enabled(g, j, e) && (e.Work? || e.WalDone?)
    ensures Owed(P.Step(g, j, e), x) <==> Owed(j, x)
  {
    var se := if e.Work? then e.e else Logged(e.w);
    EntryMoves(j, se, x.p);
    WalMoves(j, se);
    SiloEpoch.OthersKept(j.s, se);
    hide PInv, Silo.Step, Silo.Enabled;
  }

  lemma PushOwes(j: State, w: nat, x: Nid)
    requires PInv(j) && w < |j.wp| && EnPush(j, w)
    ensures Owed(StepPush(j, w), x) <==> Owed(j, x) || Makes(j, w, x)
    ensures Makes(j, w, x) ==> !Owed(j, x)
  {
    assert WInv(j.s, w);
  }

  lemma OtherOwes(g: Guards, j: State, e: P.Event, x: Nid)
    requires P.Enabled(g, j, e) && !e.Work? && !e.WalDone? && !e.Push?
    ensures Owed(P.Step(g, j, e), x) <==> Owed(j, x)
  {
    hide Enq, FlattenTo, QueueMin, UpTo, Above, Passed;
  }

  lemma StepOwes(g: Guards, j: State, e: P.Event, x: Nid)
    requires PInv(j) && P.Enabled(g, j, e)
    ensures Owed(P.Step(g, j, e), x) <==> Owed(j, x) || (e.Push? && Makes(j, e.w, x))
    ensures e.Push? && Makes(j, e.w, x) ==> !Owed(j, x)
  {
    hide Owed, PInv, Makes;
    if e.Work? || e.WalDone? {
      ProtocolOwes(g, j, e, x);
    } else if e.Push? {
      PushOwes(j, e.w, x);
    } else {
      OtherOwes(g, j, e, x);
    }
  }

  // ---------------------------------------------------------------- always

  lemma {:induction false} NonePlaced(j: State, x: Nid)
    requires P.Initial(j)
    ensures Places(j, x) == 0 && !Owed(j, x)
  {
    NoLoggers(j.lg, j.s.ge, x);
    NoWorkers(j.wp, x);
  }

  lemma {:induction false} NoLoggers(lg: seq<Logger>, ge: nat, x: Nid)
    requires forall l :: 0 <= l < |lg| ==> lg[l] == FirstLogger()
    ensures AtLoggers(lg, ge, x) == 0
  {
    if lg != [] {
      NoLoggers(lg[..|lg| - 1], ge, x);
      PipeLogger.FlattenEmpty(ge + 1);
    }
  }

  lemma {:induction false} NoWorkers(wp: seq<WPipe>, x: Nid)
    requires forall w :: 0 <= w < |wp| ==> wp[w].cur.Some? && wp[w].cur.value.nids == []
    ensures AtWorkers(wp, x) == 0
  {
    if wp != [] {
      NoWorkers(wp[..|wp| - 1], x);
    }
  }

  /**
    In every reachable state the id of each committed transaction with a write, once wal has pushed it, is
    in exactly one place, and no other id is anywhere: no client is told twice, and none is forgotten.
   */
  lemma {:induction false} NoticesOnce(g: Guards, j0: State, run: seq<P.Event>, x: Nid)
    requires Guarded(g, j0) && P.Initial(j0) && P.After(g, j0, run).Some?
    ensures var j := P.After(g, j0, run).value; Places(j, x) == if Owed(j, x) then 1 else 0
  {
    hide Places, Owed, Makes;
    if run == [] {
      NonePlaced(j0, x);
    } else {
      NoticesOnce(g, j0, run[..|run| - 1], x);
      PAlways(g, j0, run[..|run| - 1]);
      var j, e := P.After(g, j0, run[..|run| - 1]).value, run[|run| - 1];
      StepCounts(g, j, e, x);
      StepOwes(g, j, e, x);
    }
  }

  lemma TwiceCounts(ids: seq<Nid>, a: nat, b: nat)
    requires a < b < |ids| && ids[a] == ids[b]
    ensures multiset(ids)[ids[a]] >= 2
  {
    assert ids == ids[..b] + ids[b..];
    assert ids[..b][a] == ids[b..][0] == ids[a];
    assert multiset(ids) == multiset(ids[..b]) + multiset(ids[b..]);
  }

  /** No client is told twice. */
  lemma ToldOnce(g: Guards, j0: State, run: seq<P.Event>, a: nat, b: nat)
    requires Guarded(g, j0) && P.Initial(j0) && P.After(g, j0, run).Some?
    requires a < b < |P.After(g, j0, run).value.notified|
    ensures P.After(g, j0, run).value.notified[a] != P.After(g, j0, run).value.notified[b]
  {
    var ids := P.After(g, j0, run).value.notified;
    NoticesOnce(g, j0, run, ids[a]);
    if ids[a] == ids[b] { TwiceCounts(ids, a, b); }
  }
}
