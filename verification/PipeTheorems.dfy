/**
  What the durability pipeline guarantees in every reachable state, crashes included.
 */
module PipeTheorems {
  import opened Base
  import opened Silo
  import opened SiloInv
  import opened SiloEpoch
  import ST = SiloTheorems
  import P = Pipeline
  import opened Pipeline
  import opened PipeInv
  import opened PipeWork
  import opened PipeStep
  import opened PipeBuffers
  import opened PipeLogger

  type State = PipeInv.State

  lemma InitWorker(j: State, w: nat)
    requires P.Initial(j) && w < |j.wp|
    ensures PWork(j, w) && PLog(j, w) && PIds(j, w)
  {
    FlattenEmpty(j.s.ge + 1);
    assert [0] + FirstPool() == [0, 1];
  }

  lemma InitLogger(j: State, l: nat)
    requires P.Initial(j) && l < |j.lg|
    ensures PQueue(j, l) && PMin(j, l) && PDur(j, l)
  {
  }

  lemma InitPInv(j: State)
    requires P.Initial(j)
    ensures PInv(j)
  {
    ST.InitInv(j.s);
    assert EpochInv(j.s);
    forall w | 0 <= w < |j.wp| ensures PWork(j, w) && PLog(j, w) && PIds(j, w) {
      InitWorker(j, w);
    }
    forall l | 0 <= l < |j.lg| ensures PQueue(j, l) && PMin(j, l) && PDur(j, l) {
      InitLogger(j, l);
    }
    hide Silo.Initial, Inv, EpochInv, PWork, PLog, PIds, PQueue, PMin, PDur;
  }

  /** The orderings the source leaves open are respected; a sole worker's logger needs no start-up order. */
  ghost predicate Guarded(g: Guards, j: State) { g.flush && (g.started || NoSharing(j)) }

  /** A logger with one worker has no minimum to take after skipping it. */
  lemma SoleTakesNone(j: State, l: nat)
    requires PInv(j) && Sole(j, l) && l < |j.lg| && j.lg[l].phase.LScan?
    ensures !TakesLate(j, l)
  {
    assert PMin(j, l);
  }

  lemma PInvKeeps(g: Guards, j: State, e: P.Event)
    requires Guarded(g, j) && PInv(j) && P.Enabled(g, j, e)
    ensures PInv(P.Step(g, j, e))
  {
    match e
    case Work(_) => ProtocolKeeps(g, j, e);
    case WalDone(_) => ProtocolKeeps(g, j, e);
    case Ready(w) => ReadyKeeps(j, w);
    case Publish(w) => PublishKeeps(j, w);
    case Push(w) => PushKeeps(j, w);
    case Raise(w) => RaiseKeeps(j, w);
    case LogStart(l, deq) => StartKeeps(j, l, deq);
    case LogScan(l) => if !g.started { SoleTakesNone(j, l); } ScanKeeps(j, l);
    case LogQueueMin(l) => QueueMinKeeps(j, l);
    case LogDeq(l) => DeqKeeps(j, l);
    case LogWrite(l) => WriteKeeps(j, l);
    case LogSend(l) => SendKeeps(j, l);
    case LogCheck(l) => CheckKeeps(j, l);
    case LogLoadDur(l) => LoadDurKeeps(j, l);
    case LogCas(l) => CasKeeps(j, l);
    case LogPersist(l) => PersistKeeps(j, l);
    case LogNotify(l) => NotifyKeeps(j, l);
    case LogStore(l) => StoreKeeps(j, l);
  }

  lemma LoggersStay(g: Guards, j: State, e: P.Event)
    requires P.Enabled(g, j, e)
    ensures P.Step(g, j, e).loggerOf == j.loggerOf && |P.Step(g, j, e).lg| == |j.lg|
  {
    hide Silo.Step, Silo.Enabled;
  }

  lemma {:induction false} PAlways(g: Guards, j0: State, run: seq<P.Event>)
    requires Guarded(g, j0) && P.Initial(j0) && P.After(g, j0, run).Some?
    ensures PInv(P.After(g, j0, run).value)
    ensures P.After(g, j0, run).value.loggerOf == j0.loggerOf && |P.After(g, j0, run).value.lg| == |j0.lg|
  {
    if run == [] {
      InitPInv(j0);
    } else {
      PAlways(g, j0, run[..|run| - 1]);
      var j, e := P.After(g, j0, run[..|run| - 1]).value, run[|run| - 1];
      LoggersStay(g, j, e);
      PInvKeeps(g, j, e);
    }
  }

  // ---------------------------------------------------------------- the durable prefix

  /** How many transactions of the serial order belong to epochs up to `d`. */
  function PrefixLen(order: seq<Entry>, d: nat): (n: nat)
    ensures n <= |order|
    ensures forall p :: 0 <= p < n ==> order[p].epoch <= d
    ensures n < |order| ==> order[n].epoch > d
  {
    if order == [] || order[0].epoch > d then 0 else 1 + PrefixLen(order[1..], d)
  }

  /** Epochs grow along the order, so the prefix holds all transactions of epochs up to `d`. */
  lemma PrefixIsAll(s: Silo.State, d: nat, p: nat)
    requires Inv(s) && p < |s.order|
    ensures p < PrefixLen(s.order, d) <==> s.order[p].epoch <= d
  {
    var n := PrefixLen(s.order, d);
    assert OInv(s, p);
  }

  lemma {:induction false} LogGrows(order: seq<Entry>, m: nat, n: nat, w: nat)
    requires m <= n <= |order|
    ensures WorkerLog(order, m, w) <= WorkerLog(order, n, w)
  {
    if m < n {
      LogGrows(order, m, n - 1, w);
    }
  }

  /** Records of the first `n` transactions are of epochs up to `d`. */
  lemma {:induction false} LogEpochs(s: Silo.State, n: nat, d: nat, w: nat, i: nat)
    requires Inv(s) && n <= |s.order| && (forall p :: 0 <= p < n ==> s.order[p].epoch <= d)
    requires i < |WorkerLog(s.order, n, w)|
    ensures WorkerLog(s.order, n, w)[i].ver.epoch <= d
  {
    assert OInv(s, n - 1);
    if i < |WorkerLog(s.order, n - 1, w)| {
      LogEpochs(s, n - 1, d, w, i);
    }
  }

  lemma {:induction false} RecsEpochs(bufs: seq<Buffer>, w: nat, d: nat, i: nat)
    requires forall b :: 0 <= b < |bufs| ==> OneEpoch(bufs[b]) && bufs[b].epoch > d
    requires i < |RecsOf(bufs, w)|
    ensures RecsOf(bufs, w)[i].ver.epoch > d
  {
    if i < |RecsOf(bufs[..|bufs| - 1], w)| {
      RecsEpochs(bufs[..|bufs| - 1], w, d, i);
    }
  }

  lemma TransitBuffers(j: State, l: nat, b: nat)
    requires PInv(j) && l < |j.lg| && b < |InTransit(j.lg[l], j.s.ge)|
    ensures OneEpoch(InTransit(j.lg[l], j.s.ge)[b]) && InTransit(j.lg[l], j.s.ge)[b].epoch > j.lg[l].tld
  {
    var g := j.lg[l];
    assert PQueue(j, l);
    if b < |Batch(g)| {
      assert BufOk(j, l, Batch(g)[b]);
    } else {
      var e, k := FlattenMember(g.queue, j.s.ge + 1, b - |Batch(g)|);
      assert BufOk(j, l, g.queue[e][k]);
    }
  }

  /** Everything in transit or buffered is newer than the logger's durable epoch. */
  lemma TransitIsNew(j: State, w: nat, i: nat)
    requires PInv(j) && w < |j.wp|
    requires var g := j.lg[j.loggerOf[w]]; i < |RecsOf(InTransit(g, j.s.ge), w) + CurRecs(j.wp[w])|
    ensures var g := j.lg[j.loggerOf[w]];
            (RecsOf(InTransit(g, j.s.ge), w) + CurRecs(j.wp[w]))[i].ver.epoch > g.tld
  {
    hide RecsOf, InTransit;
    var l := j.loggerOf[w];
    var bufs := InTransit(j.lg[l], j.s.ge);
    forall b | 0 <= b < |bufs| ensures OneEpoch(bufs[b]) && bufs[b].epoch > j.lg[l].tld {
      TransitBuffers(j, l, b);
    }
    if i < |RecsOf(bufs, w)| {
      RecsEpochs(bufs, w, j.lg[l].tld, i);
    } else {
      assert PMin(j, l) && PWork(j, w);
      assert Future(j, w, j.lg[l].tld + 1);
    }
  }

  lemma PrefixSplit<T>(a: seq<T>, b: seq<T>, c: seq<T>)
    requires c <= a + b && |c| <= |a|
    ensures c <= a
  {
    assert forall i :: 0 <= i < |c| ==> c[i] == (a + b)[i];
  }

  /** Transactions of epochs up to a logger's durable epoch have left wal. */
  lemma PrefixIsPushed(j: State, w: nat, d: nat)
    requires PInv(j) && w < |j.wp| && d <= j.lg[j.loggerOf[w]].tld
    ensures PrefixLen(j.s.order, d) <= LoggedTo(j.s, w, j.wp[w].pushed) <= |j.s.order|
  {
    assert PMin(j, j.loggerOf[w]) && PLog(j, w) && WInv(j.s, w);
    assert Future(j, w, j.lg[j.loggerOf[w]].tld + 1);
  }

  /**
    Durable-epoch soundness, in one state: for every epoch `d` up to ThLocalDurableEpoch of its logger,
    a worker's log of the transactions up to `d` is at the start of what the file holds for it.
   */
  lemma DurablePrefix(j: State, w: nat, d: nat)
    requires PInv(j) && w < |j.wp| && d <= j.lg[j.loggerOf[w]].tld
    ensures WorkerLog(j.s.order, PrefixLen(j.s.order, d), w) <= RecsOf(j.lg[j.loggerOf[w]].file, w)
  {
    hide RecsOf, WorkerLog, FlattenTo;
    var g := j.lg[j.loggerOf[w]];
    var n, m := PrefixLen(j.s.order, d), LoggedTo(j.s, w, j.wp[w].pushed);
    PrefixIsPushed(j, w, d);
    LogGrows(j.s.order, n, m, w);
    var held, rest, log := RecsOf(g.file, w), RecsOf(InTransit(g, j.s.ge), w) + CurRecs(j.wp[w]),
        WorkerLog(j.s.order, n, w);
    assert PLog(j, w);
    assert held + rest == WorkerLog(j.s.order, m, w);
    assert forall i :: 0 <= i < |log| ==> log[i] == (held + rest)[i];
    assert |log| <= |held| by {
      if |log| > |held| {
        LogEpochs(j.s, n, d, w, |held|);
        TransitIsNew(j, w, 0);
      }
    }
    PrefixSplit(held, rest, log);
  }

  /** No transaction of a durable epoch is still undecided. */
  lemma DurableIsDecided(j: State, p: nat)
    requires PInv(j) && p < |j.s.order|
    requires j.s.order[p].w < |j.wp| && j.s.order[p].epoch <= j.lg[j.loggerOf[j.s.order[p].w]].tld
    ensures !j.s.order[p].status.Pending?
  {
    assert OInv(j.s, p);
    var w := j.s.order[p].w;
    assert WInv(j.s, w) && PMin(j, j.loggerOf[w]);
    assert Future(j, w, j.lg[j.loggerOf[w]].tld + 1);
  }

  /**
    The transactions of epochs up to `d` are exactly a prefix of the serial order, all of them decided, and for
    every worker the log file starts with every record of its committed ones, in commit order.
   */
  ghost predicate Holds(j: State, d: nat)
    requires WellFormed(j)
  {
    var n := PrefixLen(j.s.order, d);
    && (forall p :: 0 <= p < |j.s.order| ==> (p < n <==> j.s.order[p].epoch <= d))
    && (forall p :: 0 <= p < n ==> !j.s.order[p].status.Pending?)
    && (forall w :: 0 <= w < |j.wp| ==> WorkerLog(j.s.order, n, w) <= RecsOf(j.lg[j.loggerOf[w]].file, w))
  }

  /**
    Crash consistency.  In every reachable state the log files hold the transactions of epochs up to `d`
    for every `d` up to DurableEpoch.  The epoch recovery reads, written to its file in a step of its own, is one
    of them; and GlobalEpoch is beyond DurableEpoch, so no later transaction joins.
   */
  lemma CrashConsistency(g: Guards, j0: State, run: seq<P.Event>, d: nat)
    requires Guarded(g, j0) && P.Initial(j0) && P.After(g, j0, run).Some?
    ensures var j := P.After(g, j0, run).value;
            WellFormed(j) && j.pepoch <= j.dur < j.s.ge && (d <= j.dur ==> Holds(j, d))
  {
    PAlways(g, j0, run);
    var j := P.After(g, j0, run).value;
    DurBelow(j);
    if d <= j.dur {
      DurableNow(j, d);
    }
  }

  lemma DurableNow(j: State, d: nat)
    requires PInv(j) && d <= j.dur
    ensures Holds(j, d)
  {
    var n := PrefixLen(j.s.order, d);
    forall p | 0 <= p < |j.s.order| ensures p < n <==> j.s.order[p].epoch <= d {
      PrefixIsAll(j.s, d, p);
    }
    forall p | 0 <= p < n ensures !j.s.order[p].status.Pending? {
      assert OInv(j.s, p);
      assert PDur(j, j.loggerOf[j.s.order[p].w]);
      DurableIsDecided(j, p);
    }
    forall w | 0 <= w < |j.wp| ensures WorkerLog(j.s.order, n, w) <= RecsOf(j.lg[j.loggerOf[w]].file, w) {
      assert PDur(j, j.loggerOf[w]);
      DurablePrefix(j, w, d);
    }
  }

  lemma DurBelow(j: State)
    requires PInv(j)
    ensures j.dur < j.s.ge
  {
    assert PDur(j, 0) && PMin(j, 0);
  }

  // ---------------------------------------------------------------- for ever after

  /** Decided entries never change, and a new entry carries the current GlobalEpoch. */
  lemma OrderOnlyGrows(g: Guards, j: State, e: P.Event)
    requires PInv(j) && P.Enabled(g, j, e)
    ensures var j' := P.Step(g, j, e);
            && j.s.ge <= j'.s.ge && |j.s.order| <= |j'.s.order|
            && (forall p :: 0 <= p < |j.s.order| && !j.s.order[p].status.Pending? ==> j'.s.order[p] == j.s.order[p])
            && (forall p :: 0 <= p < |j.s.order| ==> j'.s.order[p].epoch == j.s.order[p].epoch)
            && (forall p :: |j.s.order| <= p < |j'.s.order| ==> j'.s.order[p].epoch >= j.s.ge)
  {
    if e.Work? || e.WalDone? {
      var se := if e.Work? then e.e else Logged(e.w);
      StepOrder(j.s, se);
      EpochsRise(j.s, se, se.w);
      DecisionKeepsEpoch(j.s, se);
    }
  }

  lemma DecisionKeepsEpoch(s: Silo.State, e: Silo.Event)
    requires Inv(s) && Silo.Enabled(s, e)
    ensures |s.order| <= |Silo.Step(s, e).order|
    ensures forall p :: 0 <= p < |s.order| ==> Silo.Step(s, e).order[p].epoch == s.order[p].epoch
    ensures forall p :: |s.order| <= p < |Silo.Step(s, e).order| ==> Silo.Step(s, e).order[p].epoch == s.ge
  {
    StepOrder(s, e);
    assert WInv(s, e.w);
  }

  /**
    What is durable stays so: however the run goes on, the transactions of epochs up to today's
    DurableEpoch are today's prefix, unchanged.
   */
  lemma {:induction false} DurablePrefixIsFinal(g: Guards, j0: State, run: seq<P.Event>, more: seq<P.Event>, d: nat)
    requires Guarded(g, j0) && P.Initial(j0) && P.After(g, j0, run).Some? && P.After(g, j0, run + more).Some?
    requires d <= P.After(g, j0, run).value.dur
    ensures var j, j' := P.After(g, j0, run).value, P.After(g, j0, run + more).value;
            var n := PrefixLen(j.s.order, d);
            && j.s.ge <= j'.s.ge && |j.s.order| <= |j'.s.order|
            && (forall p :: 0 <= p < n ==> j'.s.order[p] == j.s.order[p])
            && (forall p :: n <= p < |j'.s.order| ==> j'.s.order[p].epoch > d)
  {
    var j := P.After(g, j0, run).value;
    CrashConsistency(g, j0, run, d);
    if more == [] {
      assert run + more == run;
    } else {
      var less := more[..|more| - 1];
      assert (run + more)[..|run + more| - 1] == run + less;
      DurablePrefixIsFinal(g, j0, run, less, d);
      PAlways(g, j0, run + less);
      OrderOnlyGrows(g, P.After(g, j0, run + less).value, more[|more| - 1]);
    }
  }

  /** What the durable epoch of worker `w`'s logger promises about `w`. */
  ghost predicate Sound(j: State, w: nat)
    requires WellFormed(j) && w < |j.wp|
  {
    var lg := j.lg[j.loggerOf[w]];
    && (forall i :: 0 <= i < |CurRecs(j.wp[w])| ==> CurRecs(j.wp[w])[i].ver.epoch > lg.tld)
    && (forall i :: 0 <= i < |RecsOf(InTransit(lg, j.s.ge), w)| ==>
        RecsOf(InTransit(lg, j.s.ge), w)[i].ver.epoch > lg.tld)
    && ComesAt(j.s.workers[w], j.s.ge, j.wp[w].pushed, lg.tld + 1)
    && WorkerLog(j.s.order, PrefixLen(j.s.order, lg.tld), w) <= RecsOf(lg.file, w)
  }

  /**
    Durable-epoch soundness for one logger: with d = ThLocalDurableEpoch, nothing of an epoch up to d
    from its workers is in a current buffer, queued or in the hands of the logger, nor can a worker
    still push such a record; all of it is in the file.
   */
  lemma DurableEpochSound(g: Guards, j0: State, run: seq<P.Event>, w: nat)
    requires Guarded(g, j0) && P.Initial(j0) && P.After(g, j0, run).Some? && w < |P.After(g, j0, run).value.wp|
    ensures WellFormed(P.After(g, j0, run).value) && Sound(P.After(g, j0, run).value, w)
  {
    PAlways(g, j0, run);
    SoundNow(P.After(g, j0, run).value, w);
  }

  lemma SoundNow(j: State, w: nat)
    requires PInv(j) && w < |j.wp|
    ensures Sound(j, w)
  {
    hide RecsOf, WorkerLog, InTransit;
    var lg := j.lg[j.loggerOf[w]];
    var moving, held := RecsOf(InTransit(lg, j.s.ge), w), CurRecs(j.wp[w]);
    forall i | 0 <= i < |moving| ensures moving[i].ver.epoch > lg.tld {
      TransitIsNew(j, w, i);
    }
    forall i | 0 <= i < |held| ensures held[i].ver.epoch > lg.tld {
      TransitIsNew(j, w, |moving| + i);
    }
    assert PMin(j, j.loggerOf[w]);
    assert Future(j, w, lg.tld + 1);
    DurablePrefix(j, w, lg.tld);
  }

  /** A committed transaction all of whose records are in its worker's log file. */
  ghost predicate Filed(j: State, p: nat)
    requires WellFormed(j)
  {
    && p < |j.s.order| && j.s.order[p].status.Committed? && j.s.order[p].w < |j.wp|
    && WorkerLog(j.s.order, p + 1, j.s.order[p].w) <= RecsOf(j.lg[j.loggerOf[j.s.order[p].w]].file, j.s.order[p].w)
  }

  /** A client is told only of committed transactions all of whose records are in the log file. */
  lemma NotifiedIsLogged(g: Guards, j0: State, run: seq<P.Event>, i: nat)
    requires Guarded(g, j0) && P.Initial(j0) && P.After(g, j0, run).Some? && i < |P.After(g, j0, run).value.notified|
    ensures var j := P.After(g, j0, run).value; WellFormed(j) && Filed(j, j.notified[i].p)
  {
    PAlways(g, j0, run);
    hide P.After, P.Initial;
    FiledNow(P.After(g, j0, run).value, i);
  }

  lemma FiledNow(j: State, i: nat)
    requires PInv(j) && i < |j.notified|
    ensures Filed(j, j.notified[i].p)
  {
    hide RecsOf, WorkerLog;
    assert NidOk(j.s.order, j.notified[i]);
    var p := j.notified[i].p;
    assert OInv(j.s, p);
    var w := j.s.order[p].w;
    assert PDur(j, j.loggerOf[w]);
    var d := j.lg[j.loggerOf[w]].tld;
    DurablePrefix(j, w, d);
    PrefixIsAll(j.s, d, p);
    LogGrows(j.s.order, p + 1, PrefixLen(j.s.order, d), w);
  }

  /** Where worker `w`'s records and buffers are. */
  ghost predicate Conserved(j: State, w: nat)
    requires WellFormed(j) && w < |j.wp|
  {
    var lg, p := j.lg[j.loggerOf[w]], j.wp[w];
    && RecsOf(lg.file, w) <= WorkerLog(j.s.order, |j.s.order|, w)
    && multiset(p.pool) + CurId(p) + IdsOf(InTransit(lg, j.s.ge), w) == AllIds()
    && (p.cur.Some? ==> OneEpoch(p.cur.value))
    && (forall i :: 0 <= i < |lg.file| ==> OneEpoch(lg.file[i]))
  }

  /**
    Log conservation: a worker's records reach the file once, in commit order, and buffers are never lost or
    shared.
   */
  lemma LogConservation(g: Guards, j0: State, run: seq<P.Event>, w: nat)
    requires Guarded(g, j0) && P.Initial(j0) && P.After(g, j0, run).Some? && w < |P.After(g, j0, run).value.wp|
    ensures WellFormed(P.After(g, j0, run).value) && Conserved(P.After(g, j0, run).value, w)
  {
    PAlways(g, j0, run);
    ConservedNow(P.After(g, j0, run).value, w);
  }

  lemma ConservedNow(j: State, w: nat)
    requires PInv(j) && w < |j.wp|
    ensures Conserved(j, w)
  {
    hide RecsOf, IdsOf, WorkerLog, InTransit;
    var l := j.loggerOf[w];
    assert PLog(j, w) && PIds(j, w) && PWork(j, w) && PQueue(j, l);
    LogGrows(j.s.order, LoggedTo(j.s, w, j.wp[w].pushed), |j.s.order|, w);
    var held, rest := RecsOf(j.lg[l].file, w), RecsOf(InTransit(j.lg[l], j.s.ge), w) + CurRecs(j.wp[w]);
    assert RecsOf(j.lg[l].file, w) + RecsOf(InTransit(j.lg[l], j.s.ge), w) + CurRecs(j.wp[w]) == held + rest;
  }
}
