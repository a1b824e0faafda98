/**
  The invariant of the durability pipeline: where each worker's log records are, and what the
  loggers' minima say about the records still to come.
 */
module PipeInv {
  import opened Base
  import opened Silo
  import opened SiloInv
  import opened SiloEpoch
  import P = Pipeline
  import opened Pipeline

  type State = P.State

  // ---------------------------------------------------------------- where the records are

  /** The log of worker `w`: the records of its committed transactions among the first `n`, in order. */
  function WorkerLog(order: seq<Entry>, n: nat, w: nat): seq<LogRec>
    requires n <= |order|
  {
    if n == 0 then []
    else WorkerLog(order, n - 1, w)
         + (if order[n - 1].status.Committed? && order[n - 1].w == w then LogOf(order[n - 1].wset, order[n - 1].ver)
             else [])
  }

  /** How much of the order worker `u` has pushed: not the transaction whose wal call is still to push. */
  function LoggedTo(s: Silo.State, u: nat, pushed: bool): nat
    requires u < |s.workers|
  {
    if s.workers[u].phase.Logging? && !pushed then s.workers[u].pos else |s.order|
  }

  function RecsOf(bufs: seq<Buffer>, w: nat): seq<LogRec> {
    if bufs == [] then [] else RecsOf(bufs[..|bufs| - 1], w) + (if bufs[|bufs| - 1].w == w then bufs[|bufs| - 1].recs
        else [])
  }

  function IdOf(b: Buffer, w: nat): multiset<nat> { if b.w == w then multiset{b.id} else multiset{} }

  function IdsOf(bufs: seq<Buffer>, w: nat): multiset<nat> {
    if bufs == [] then multiset{} else IdsOf(bufs[..|bufs| - 1], w) + IdOf(bufs[|bufs| - 1], w)
  }

  function Batch(g: Logger): seq<Buffer> { if g.phase.LWriting? then g.phase.batch else [] }

  /** Buffers between the worker and the file. */
  function InTransit(g: Logger, ge: nat): seq<Buffer> { Batch(g) + FlattenTo(g.queue, ge + 1) }

  function CurRecs(p: WPipe): seq<LogRec> { if p.cur.Some? then p.cur.value.recs else [] }
  function CurId(p: WPipe): multiset<nat> { if p.cur.Some? then multiset{p.cur.value.id} else multiset{} }

  // ---------------------------------------------------------------- what is still to come

  predicate Unlogged(k: Worker, pushed: bool) { InFlight(k.phase) || (k.phase.Logging? && !pushed) }

  /** Nothing worker `k` may still push has an epoch below `m`. */
  predicate ComesAt(k: Worker, ge: nat, pushed: bool, m: nat) {
    m <= ge && (Unlogged(k, pushed) ==> m <= k.epoch)
  }

  /** The same, counting the records already in the current buffer. */
  predicate Future(j: State, w: nat, m: nat)
    requires w < |j.wp| && w < |j.s.workers|
  {
    && ComesAt(j.s.workers[w], j.s.ge, j.wp[w].pushed, m)
    && (CurRecs(j.wp[w]) != [] ==> m <= j.wp[w].cur.value.epoch)
  }

  ghost predicate NidOk(order: seq<Entry>, n: Nid) {
    n.p < |order| && order[n.p].status.Committed? && order[n.p].ver.epoch == n.epoch
  }

  ghost predicate NidsOk(order: seq<Entry>, ids: seq<Nid>) {
    forall i :: 0 <= i < |ids| ==> NidOk(order, ids[i])
  }

  predicate OneEpoch(b: Buffer) {
    && (forall i :: 0 <= i < |b.recs| ==> b.recs[i].ver.epoch == b.epoch)
    && (forall i :: 0 <= i < |b.nids| ==> b.nids[i].epoch == b.epoch)
  }

  /** A published buffer of logger `l`. */
  ghost predicate BufOk(j: State, l: nat, b: Buffer) {
    && b.w < |j.loggerOf| && j.loggerOf[b.w] == l && b.recs != [] && OneEpoch(b) && NidsOk(j.s.order, b.nids)
  }

  // ---------------------------------------------------------------- the invariant

  ghost predicate PWork(j: State, w: nat)
    requires WellFormed(j) && w < |j.wp|
  {
    var k, p := j.s.workers[w], j.wp[w];
    && (p.pushed ==> k.phase.Logging? && (CurRecs(p) != [] ==> k.mrc.epoch <= p.cur.value.epoch))
    && p.ctidw <= k.local && (p.ctidw == 0 ==> Resting(k.phase) && CurRecs(p) == [])
    && (p.cur.Some? ==>
          && p.cur.value.w == w && (p.cur.value.recs == [] ==> p.cur.value.nids == []) && OneEpoch(p.cur.value)
              && NidsOk(j.s.order, p.cur.value.nids)
          && (p.cur.value.recs != [] ==> p.ctidw <= p.cur.value.epoch <= k.local))
  }

  /** Conservation: file, batch, queue and current buffer hold the worker's log, once and in order. */
  ghost predicate PLog(j: State, w: nat)
    requires WellFormed(j) && w < |j.wp|
  {
    var g := j.lg[j.loggerOf[w]];
    && LoggedTo(j.s, w, j.wp[w].pushed) <= |j.s.order|
    && RecsOf(g.file, w) + RecsOf(InTransit(g, j.s.ge), w) + CurRecs(j.wp[w])
        == WorkerLog(j.s.order, LoggedTo(j.s, w, j.wp[w].pushed), w)
  }

  function AllIds(): multiset<nat> { multiset([0] + FirstPool()) }

  /** The buffers of a worker are always partitioned among pool, current, queue and logger. */
  ghost predicate PIds(j: State, w: nat)
    requires WellFormed(j) && w < |j.wp|
  {
    multiset(j.wp[w].pool) + CurId(j.wp[w]) + IdsOf(InTransit(j.lg[j.loggerOf[w]], j.s.ge), w) == AllIds()
  }

  /** The newest epoch worker `w` has put into a buffer is at most this. */
  function Top(j: State, w: nat): nat
    requires WellFormed(j) && w < |j.wp|
  {
    if CurRecs(j.wp[w]) != [] then j.wp[w].cur.value.epoch else j.s.workers[w].local
  }

  ghost predicate PQueue(j: State, l: nat)
    requires WellFormed(j) && l < |j.lg|
  {
    var g := j.lg[l];
    && (forall e :: e in g.queue ==> g.tld < e <= j.s.ge && forall i :: 0 <= i < |g.queue[e]| ==>
        BufOk(j, l, g.queue[e][i]) && g.queue[e][i].epoch == e)
    && (forall e, i :: e in g.queue && 0 <= i < |g.queue[e]| ==> e <= Top(j, g.queue[e][i].w))
    && (forall i :: 0 <= i < |Batch(g)| ==> BufOk(j, l, Batch(g)[i]) && g.tld < Batch(g)[i].epoch)
    && NidsOk(j.s.order, g.pending)
    && (forall i :: 0 <= i < |g.file| ==>
        g.file[i].w < |j.loggerOf| && j.loggerOf[g.file[i].w] == l && OneEpoch(g.file[i]))
  }

  /** Every worker of logger `l` (below `n`) is past `m`. */
  ghost predicate AllFuture(j: State, l: nat, n: nat, m: nat)
    requires WellFormed(j)
  {
    forall w :: 0 <= w < n && w < |j.wp| && j.loggerOf[w] == l ==> Future(j, w, m)
  }

  predicate QueueFrom(g: Logger, m: nat) {
    (forall e :: e in g.queue ==> m <= e) && forall i :: 0 <= i < |Batch(g)| ==> m <= Batch(g)[i].epoch
  }

  /** The part of a round that raises the durable epochs. */
  predicate Raising(ph: LPhase) {
    ph.LCheck? || ph.LDurable? || ph.LCas? || ph.LPersist? || ph.LNotify? || ph.LStore?
  }

  /** The minimum a logger carries through a round. */
  predicate Carries(ph: LPhase) { ph.LHave? || ph.LWriting? || ph.LSend? || Raising(ph) }

  ghost predicate PMin(j: State, l: nat)
    requires WellFormed(j) && l < |j.lg|
  {
    var g := j.lg[l];
    && AllFuture(j, l, |j.wp|, g.tld + 1) && g.tld < j.s.ge
    && (g.phase.LScan? || g.phase.LQueue? || Carries(g.phase) ==> g.phase.min <= j.s.ge)
    && (g.phase.LScan? ==>
          && (g.phase.min != 0 ==> !g.phase.blind && AllFuture(j, l, g.phase.k, g.phase.min))
          && (g.phase.min == 0 && !g.phase.blind ==> forall w :: 0 <= w < g.phase.k && w < |j.wp| ==>
              j.loggerOf[w] != l)
          && (g.phase.blind ==> exists w :: 0 <= w < g.phase.k && w < |j.wp| && j.loggerOf[w] == l))
    && (g.phase.LQueue? ==> AllFuture(j, l, |j.wp|, g.phase.min) && g.phase.min != 0)
    && (Carries(g.phase) ==> AllFuture(j, l, |j.wp|, g.phase.min) && QueueFrom(g, g.phase.min))
    && (Raising(g.phase) ==> g.tld + 1 < g.phase.min)
  }

  /** The part of a check_durable scan already done. */
  ghost predicate PDur(j: State, l: nat)
    requires WellFormed(j) && l < |j.lg|
  {
    var ph := j.lg[l].phase;
    && (ph.LCheck? ==> forall m :: 0 <= m < ph.i && m < |j.lg| ==> ph.dl <= j.lg[m].tld)
    && (ph.LDurable? || ph.LCas? || ph.LPersist? || ph.LNotify? ==> forall m :: 0 <= m < |j.lg| ==>
        ph.dl <= j.lg[m].tld)
    && (ph.LCheck? ==> ph.i >= 1)
    && (ph.LPersist? ==> ph.dl <= j.dur)
    && j.dur <= j.lg[l].tld
    && (forall i :: 0 <= i < |j.notified| ==> j.notified[i].epoch <= j.lg[l].tld)
  }

  ghost predicate PInv(j: State) {
    && WellFormed(j) && Inv(j.s) && EpochInv(j.s)
    && (forall w {:trigger PWork(j, w)} {:trigger PLog(j, w)} :: 0 <= w < |j.wp| ==> PWork(j, w) && PLog(j, w))
    && (forall w {:trigger PIds(j, w)} :: 0 <= w < |j.wp| ==> PIds(j, w))
    && (forall l {:trigger PQueue(j, l)} {:trigger PMin(j, l)} :: 0 <= l < |j.lg| ==> PQueue(j, l) && PMin(j, l))
    && (forall l {:trigger PDur(j, l)} :: 0 <= l < |j.lg| ==> PDur(j, l))
    && NidsOk(j.s.order, j.notified) && j.pepoch <= j.dur
  }

  /** No two workers log to logger `l`. */
  ghost predicate Sole(j: State, l: nat) {
    forall u, v :: 0 <= u < |j.loggerOf| && 0 <= v < |j.loggerOf| && j.loggerOf[u] == l == j.loggerOf[v] ==> u == v
  }

  /** No two workers log to the same logger. */
  ghost predicate NoSharing(j: State) {
    forall u, v :: 0 <= u < |j.loggerOf| && 0 <= v < |j.loggerOf| && j.loggerOf[u] == j.loggerOf[v] ==> u == v
  }
}
