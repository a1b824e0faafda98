/**
  The group-commit durability pipeline, joined to the commit protocol: worker buffers, the logger's
  queue and file, per-logger and global durable epochs, and client notification
  (server/enclave/silo_cc/silo_transaction.cpp wal and epochWork, silo_log_buffer.cpp,
  silo_log_queue.cpp, silo_logger.cpp, silo_notifier.cpp).

  As in `Silo`, every access to memory shared between threads is its own step: each load of a CTIDW
  word in find_min_epoch, the later load of the queue minimum, the dequeue, each buffer write, each
  load of a per-logger durable epoch, the load and the compare-exchange of DurableEpoch.
 */
module Pipeline {
  import opened Base
  import opened Tid
  import opened Silo
  import NR = NidRing

  /** MAX_BUFFERED_LOG_ENTRIES and BUFFER_NUM. */
  const MAX_ENTRIES: nat := 1000
  const BUFFERS: nat := 2

  datatype LogRec = LogRec(r: Rid, op: Op, val: Val, ver: Ver)
  /** A notification id: the transaction's place in the serial order and its epoch. */
  datatype Nid = Nid(p: nat, epoch: nat)
  /** Log buffer `id` of worker `w`; `epoch` is min_epoch_. */
  datatype Buffer = Buffer(id: nat, w: nat, epoch: nat, recs: seq<LogRec>, nids: seq<Nid>)

  /** A worker's side: the epoch of CTIDW (0: never stored), current_buffer_, pool_, and whether wal has pushed. */
  datatype WPipe = WPipe(ctidw: nat, cur: Option<Buffer>, pool: seq<nat>, pushed: bool)

  datatype LPhase =
    | LIdle
    | LScan(k: nat, min: nat, deq: bool, blind: bool) // CTIDW of workers 0..k read; min = 0 while none was seen;
                                            // blind: a zero word was skipped while min was 0
    | LQueue(min: nat, deq: bool)           // about to read the queue minimum
    | LHave(min: nat, deq: bool)
    | LWriting(min: nat, batch: seq<Buffer>)
    | LSend(min: nat)
    | LCheck(i: nat, dl: nat, min: nat)     // durable epochs of loggers 0..i read
    | LDurable(dl: nat, min: nat)           // about to load DurableEpoch
    | LCas(seen: nat, dl: nat, min: nat)
    | LPersist(dl: nat, min: nat)           // compare-exchange done, the file not yet written
    | LNotify(dl: nat, min: nat)
    | LStore(min: nat)

  /** `pending` are the ids that wait, in the order they came, and `ring` is nid_buffer_, which keeps them by epoch. */
  datatype Logger = Logger(phase: LPhase, queue: map<nat, seq<Buffer>>, file: seq<Buffer>, tld: nat, pending: seq<Nid>,
                           ring: seq<NR.Bucket>)

  /**
    Two orderings the source does not enforce.  `flush`: CTIDW is raised by epochWork only when the
    current buffer holds nothing older.  `started`: find_min_epoch, which skips a zero word, does not go on
    to take a minimum from another worker after it skipped one.
   */
  datatype Guards = Guards(flush: bool, started: bool)

  datatype State = State(s: Silo.State, wp: seq<WPipe>, lg: seq<Logger>, loggerOf: seq<nat>, dur: nat,
                         pepoch: nat, notified: seq<Nid>)

  datatype Event =
    | Work(e: Silo.Event)
    | Ready(w: nat) | Publish(w: nat) | Push(w: nat) | WalDone(w: nat) | Raise(w: nat)
    | LogStart(l: nat, deq: bool) | LogScan(l: nat) | LogQueueMin(l: nat) | LogDeq(l: nat) | LogWrite(l: nat)
    | LogSend(l: nat) | LogCheck(l: nat) | LogLoadDur(l: nat) | LogCas(l: nat) | LogPersist(l: nat) | LogNotify(l: nat)
    | LogStore(l: nat)

  // ---------------------------------------------------------------- helpers

  /** The log records of a write set under its commit TID. */
  function LogOf(ws: seq<WElem>, v: Ver): (log: seq<LogRec>)
    ensures |log| == |ws|
    ensures forall i :: 0 <= i < |ws| ==> log[i] == LogRec(ws[i].r, ws[i].op, ws[i].val, v)
  {
    seq(|ws|, i requires 0 <= i < |ws| => LogRec(ws[i].r, ws[i].op, ws[i].val, v))
  }

  /** All buffers but the first start in the pool. */
  function FirstPool(): seq<nat> { seq(BUFFERS - 1, i requires 0 <= i => i + 1) }

  function FirstLogger(): Logger { Logger(LIdle, map[], [], 0, [], [NR.Bucket(0, [])]) }

  function EmptyBuffer(id: nat, w: nat): Buffer { Buffer(id, w, 0, [], []) }

  /** LogQueue::deq: all buffers with an epoch below `n`, by ascending epoch, oldest first within one. */
  function FlattenTo(q: map<nat, seq<Buffer>>, n: nat): seq<Buffer> {
    if n == 0 then [] else FlattenTo(q, n - 1) + (if n - 1 in q then q[n - 1] else [])
  }

  /** LogQueue::enq. */
  function Enq(q: map<nat, seq<Buffer>>, b: Buffer): map<nat, seq<Buffer>> {
    q[b.epoch := (if b.epoch in q then q[b.epoch] else []) + [b]]
  }

  /** LogQueue::min_epoch, capped by `n` when the queue holds nothing below it. */
  function QueueMin(q: map<nat, seq<Buffer>>, n: nat): (m: nat)
    ensures m <= n
    ensures forall e :: e in q && e < n ==> m <= e
    ensures m == n || m in q
  {
    if n == 0 then 0
    else
      var m := QueueMin(q, n - 1);
      if m < n - 1 || n - 1 in q then m else n
  }

  function Ps(ids: seq<Nid>): (r: seq<nat>)
    ensures |r| == |ids| && forall i :: 0 <= i < |r| ==> r[i] == ids[i].p
  {
    seq(|ids|, i requires 0 <= i < |ids| => ids[i].p)
  }

  /** LogBuffer::pass_nid. */
  function Passed(ring: seq<NR.Bucket>, b: Buffer): seq<NR.Bucket> {
    if b.nids == [] then ring else NR.Put(ring, Ps(b.nids), b.epoch)
  }

  function PutW(j: State, w: nat, p: WPipe): State requires w < |j.wp| { j.(wp := j.wp[w := p]) }
  function PutL(j: State, l: nat, g: Logger): State requires l < |j.lg| { j.(lg := j.lg[l := g]) }

  /** Ids with an epoch up to `d`, in order, and the others. */
  function UpTo(ids: seq<Nid>, d: nat): seq<Nid> {
    if ids == [] then [] else (if ids[0].epoch <= d then [ids[0]] else []) + UpTo(ids[1..], d)
  }

  function Above(ids: seq<Nid>, d: nat): seq<Nid> {
    if ids == [] then [] else (if ids[0].epoch <= d then [] else [ids[0]]) + Above(ids[1..], d)
  }

  // ---------------------------------------------------------------- initial states

  predicate WellFormed(j: State) {
    |j.wp| == |j.s.workers| == |j.loggerOf| && |j.lg| > 0 && forall w :: 0 <= w < |j.loggerOf| ==>
        j.loggerOf[w] < |j.lg|
  }

  ghost predicate Initial(j: State) {
    && Silo.Initial(j.s) && WellFormed(j)
    && (forall w :: 0 <= w < |j.wp| ==> j.wp[w] == WPipe(0, Some(EmptyBuffer(0, w)), FirstPool(), false))
    && (forall l :: 0 <= l < |j.lg| ==> j.lg[l] == FirstLogger())
    && j.dur == 0 && j.pepoch == 0 && j.notified == []
  }

  // ---------------------------------------------------------------- steps

  /** The current buffer holds a record of an epoch below `n`. */
  predicate HoldsOlder(p: WPipe, n: nat) { p.cur.Some? && p.cur.value.recs != [] && p.cur.value.epoch < n }

  predicate Enabled(g: Guards, j: State, e: Event) {
    && WellFormed(j)
    && match e
       case Work(se) =>
         // a transaction begins only after durableEpochWork has stored CTIDW
         Silo.Enabled(j.s, se) && !se.Logged? && (se.Begin? ==> j.wp[se.w].ctidw != 0)
       case Ready(w) => w < |j.wp| && j.wp[w].cur.None? && j.wp[w].pool != []
       case Publish(w) => w < |j.wp| && EnPublish(j, w)
       case Push(w) => w < |j.wp| && EnPush(j, w)
       case WalDone(w) => w < |j.wp| && j.s.workers[w].phase.Logging? && j.wp[w].pushed
       case Raise(w) => w < |j.wp| && j.s.workers[w].phase.Idle? && j.s.workers[w].local != 0
                        && (g.flush ==> !HoldsOlder(j.wp[w], j.s.workers[w].local))
       case LogStart(l, deq) => l < |j.lg| && j.lg[l].phase.LIdle? && (deq ==> j.lg[l].queue != map[])
       case LogScan(l) => l < |j.lg| && j.lg[l].phase.LScan? && (g.started ==> !TakesLate(j, l))
       case LogQueueMin(l) => l < |j.lg| && j.lg[l].phase.LQueue?
       case LogDeq(l) => l < |j.lg| && j.lg[l].phase.LHave?
       case LogWrite(l) => l < |j.lg| && j.lg[l].phase.LWriting? && (j.lg[l].phase.batch != [] ==>
           j.lg[l].phase.batch[0].w < |j.wp|)
       case LogSend(l) => l < |j.lg| && j.lg[l].phase.LSend?
       case LogCheck(l) => l < |j.lg| && j.lg[l].phase.LCheck?
       case LogLoadDur(l) => l < |j.lg| && j.lg[l].phase.LDurable?
       case LogCas(l) => l < |j.lg| && j.lg[l].phase.LCas?
       case LogPersist(l) => l < |j.lg| && j.lg[l].phase.LPersist?
       case LogNotify(l) => l < |j.lg| && j.lg[l].phase.LNotify?
       case LogStore(l) => l < |j.lg| && j.lg[l].phase.LStore?
  }

  /** The scan is about to take a minimum although it skipped the zero word of another worker. */
  predicate TakesLate(j: State, l: nat)
    requires WellFormed(j) && l < |j.lg| && j.lg[l].phase.LScan?
  {
    var ph := j.lg[l].phase;
    ph.blind && ph.k < |j.wp| && j.loggerOf[ph.k] == l && j.wp[ph.k].ctidw != 0
  }

  /** publish, from durableEpochWork between transactions or from LogBufferPool::push. */
  predicate EnPublish(j: State, w: nat)
    requires WellFormed(j) && w < |j.wp|
  {
    var k, p := j.s.workers[w], j.wp[w];
    && p.cur.Some? && p.cur.value.recs != []
    && (k.phase.Idle? || (k.phase.Logging? && !p.pushed
        && (p.ctidw != k.mrc.epoch || |p.cur.value.recs| > MAX_ENTRIES)))
  }

  /** LogBufferPool::push past the publish test and the wait for a buffer. */
  predicate EnPush(j: State, w: nat)
    requires WellFormed(j) && w < |j.wp|
  {
    var k, p := j.s.workers[w], j.wp[w];
    && k.phase.Logging? && !p.pushed && p.cur.Some?
    && (p.cur.value.recs == [] || (p.ctidw == k.mrc.epoch && |p.cur.value.recs| <= MAX_ENTRIES))
  }

  function Step(g: Guards, j: State, e: Event): State
    requires Enabled(g, j, e)
  {
    match e
    case Work(se) => j.(s := Silo.Step(j.s, se))
    case Ready(w) => StepReady(j, w)
    case Publish(w) => StepPublish(j, w)
    case Push(w) => StepPush(j, w)
    case WalDone(w) =>
      PutW(j, w, j.wp[w].(ctidw := j.s.workers[w].mrc.epoch, pushed := false)).(s := Silo.Step(j.s, Logged(w)))
    case Raise(w) => StepRaise(j, w)
    case LogStart(l, deq) => PutL(j, l, j.lg[l].(phase := LScan(0, 0, deq, false)))
    case LogScan(l) => StepScan(j, l)
    case LogQueueMin(l) => StepQueueMin(j, l)
    case LogDeq(l) => StepDeq(j, l)
    case LogWrite(l) => StepWrite(j, l)
    case LogSend(l) => StepSend(j, l)
    case LogCheck(l) => StepCheck(j, l)
    case LogLoadDur(l) => PutL(j, l, j.lg[l].(phase := LCas(j.dur, j.lg[l].phase.dl, j.lg[l].phase.min)))
    case LogCas(l) => StepCas(j, l)
    case LogPersist(l) => StepPersist(j, l)
    case LogNotify(l) => StepNotify(j, l)
    case LogStore(l) => StepStore(j, l)
  }

  /** is_ready takes the last buffer of the pool. */
  function StepReady(j: State, w: nat): State
    requires w < |j.wp| && j.wp[w].pool != []
  {
    var pool := j.wp[w].pool;
    PutW(j, w, j.wp[w].(cur := Some(EmptyBuffer(pool[|pool| - 1], w)), pool := pool[..|pool| - 1]))
  }

  function StepPublish(j: State, w: nat): State
    requires WellFormed(j) && w < |j.wp| && j.wp[w].cur.Some?
  {
    var l := j.loggerOf[w];
    PutL(PutW(j, w, j.wp[w].(cur := None)), l, j.lg[l].(queue := Enq(j.lg[l].queue, j.wp[w].cur.value)))
  }

  function StepPush(j: State, w: nat): State
    requires WellFormed(j) && w < |j.wp| && j.wp[w].cur.Some?
  {
    PutW(j, w, j.wp[w].(cur := Some(Pushed(j.wp[w].cur.value, j.s.workers[w])), pushed := true))
  }

  /** epochWork stores the local epoch into CTIDW. */
  function StepRaise(j: State, w: nat): State
    requires WellFormed(j) && w < |j.wp|
  {
    PutW(j, w, j.wp[w].(ctidw := j.s.workers[w].local))
  }

  /** LogBuffer::push: records and id; the first record fixes min_epoch_. */
  function Pushed(b: Buffer, k: Worker): Buffer {
    if k.wset == [] then b
    else b.(recs := b.recs + LogOf(k.wset, k.mrc), nids := b.nids + [Nid(k.pos, k.mrc.epoch)],
            epoch := if b.recs == [] || k.mrc.epoch < b.epoch then k.mrc.epoch else b.epoch)
  }

  /** find_min_epoch, one worker: zero words and workers of other loggers are skipped. */
  function StepScan(j: State, l: nat): State
    requires WellFormed(j) && l < |j.lg| && j.lg[l].phase.LScan?
  {
    var ph := j.lg[l].phase;
    if ph.k >= |j.wp| then PutL(j, l, j.lg[l].(phase := if ph.min == 0 then LIdle else LQueue(ph.min, ph.deq)))
    else
      var c := j.wp[ph.k].ctidw;
      var min := if j.loggerOf[ph.k] == l && c != 0 && (ph.min == 0 || c < ph.min) then c else ph.min;
      var blind := ph.blind || (j.loggerOf[ph.k] == l && c == 0 && ph.min == 0);
      PutL(j, l, j.lg[l].(phase := LScan(ph.k + 1, min, ph.deq, blind)))
  }

  function StepQueueMin(j: State, l: nat): State
    requires l < |j.lg| && j.lg[l].phase.LQueue?
  {
    var ph := j.lg[l].phase;
    PutL(j, l, j.lg[l].(phase := LHave(QueueMin(j.lg[l].queue, ph.min), ph.deq)))
  }

  /** logging dequeues everything; the waiting loop goes straight on. */
  function StepDeq(j: State, l: nat): State
    requires l < |j.lg| && j.lg[l].phase.LHave?
  {
    var ph := j.lg[l].phase;
    if ph.deq then
      PutL(j, l, j.lg[l].(phase := LWriting(ph.min, FlattenTo(j.lg[l].queue, j.s.ge + 1)), queue := map[]))
    else PutL(j, l, j.lg[l].(phase := LSend(ph.min)))
  }

  /** LogBuffer::write, pass_nid and return_buffer for the next buffer of the batch. */
  function StepWrite(j: State, l: nat): State
    requires l < |j.lg| && j.lg[l].phase.LWriting? && (j.lg[l].phase.batch != [] ==> j.lg[l].phase.batch[0].w < |j.wp|)
  {
    var ph := j.lg[l].phase;
    if ph.batch == [] then PutL(j, l, j.lg[l].(phase := LSend(ph.min)))
    else
      var b := ph.batch[0];
      PutW(PutL(j, l, j.lg[l].(phase := LWriting(ph.min, ph.batch[1..]), file := j.lg[l].file + [b],
                                pending := j.lg[l].pending + b.nids, ring := Passed(j.lg[l].ring, b))),
           b.w, j.wp[b.w].(pool := j.wp[b.w].pool + [b.id]))
  }

  /** send_nid_to_notifier: go on only if the new durable epoch, min - 1, exceeds the old one. */
  function StepSend(j: State, l: nat): State
    requires WellFormed(j) && l < |j.lg| && j.lg[l].phase.LSend?
  {
    var min := j.lg[l].phase.min;
    PutL(j, l, j.lg[l].(phase := if j.lg[l].tld + 1 < min then LCheck(1, j.lg[0].tld, min) else LIdle))
  }

  /** check_durable, one logger. */
  function StepCheck(j: State, l: nat): State
    requires WellFormed(j) && l < |j.lg| && j.lg[l].phase.LCheck?
  {
    var ph := j.lg[l].phase;
    if ph.i >= |j.lg| then PutL(j, l, j.lg[l].(phase := LDurable(ph.dl, ph.min)))
    else
      PutL(j, l, j.lg[l].(phase := LCheck(ph.i + 1, if j.lg[ph.i].tld < ph.dl then j.lg[ph.i].tld else ph.dl, ph.min)))
  }

  /** One compare-exchange of DurableEpoch, tried only upwards and not retried; its winner goes on to write the file. */
  function StepCas(j: State, l: nat): State
    requires l < |j.lg| && j.lg[l].phase.LCas?
  {
    var ph := j.lg[l].phase;
    if ph.seen < ph.dl && j.dur == ph.seen then PutL(j, l, j.lg[l].(phase := LPersist(ph.dl, ph.min))).(dur := ph.dl)
    else PutL(j, l, j.lg[l].(phase := LNotify(ph.dl, ph.min)))
  }

  /** PepochFile::write_epoch. */
  function StepPersist(j: State, l: nat): State
    requires l < |j.lg| && j.lg[l].phase.LPersist?
  {
    var ph := j.lg[l].phase;
    PutL(j, l, j.lg[l].(phase := LNotify(ph.dl, ph.min))).(pepoch := ph.dl)
  }

  /** NidBuffer::notify. */
  function StepNotify(j: State, l: nat): State
    requires l < |j.lg| && j.lg[l].phase.LNotify?
  {
    var ph := j.lg[l].phase;
    PutL(j, l, j.lg[l].(phase := LStore(ph.min), pending := Above(j.lg[l].pending, ph.dl),
                        ring := NR.Rotated(j.lg[l].ring, NR.DueCount(j.lg[l].ring, ph.dl))))
    .(notified := j.notified + UpTo(j.lg[l].pending, ph.dl))
  }

  function StepStore(j: State, l: nat): State
    requires l < |j.lg| && j.lg[l].phase.LStore?
  {
    var min := j.lg[l].phase.min;
    PutL(j, l, j.lg[l].(phase := LIdle, tld := if min > 0 then min - 1 else 0))
  }

  function After(g: Guards, j: State, run: seq<Event>): Option<State> {
    if run == [] then Some(j)
    else
      match After(g, j, run[..|run| - 1])
      case None => None
      case Some(mid) =>
        if Enabled(g, mid, run[|run| - 1]) then Some(Step(g, mid, run[|run| - 1])) else None
  }
}
