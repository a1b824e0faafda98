/**
  Recovery after a crash: the epoch loop of execute_recovery (server/enclave/silo_r/silor.cpp) on the
  log files the durability pipeline left behind.
 */
module Recovery {
  import opened Base
  import opened Tid
  import opened Silo
  import opened SiloInv
  import ST = SiloTheorems
  import P = Pipeline
  import opened Pipeline
  import opened PipeInv
  import opened PipeTheorems
  import R = Replay
  import A = LogArchive

  type State = PipeInv.State

  // ---------------------------------------------------------------- what recovery reads

  function FileRecs(file: seq<Buffer>): seq<LogRec> {
    if file == [] then [] else FileRecs(file[..|file| - 1]) + file[|file| - 1].recs
  }

  /** All records of the first `k` log files. */
  function AllRecs(lg: seq<Logger>, k: nat): seq<LogRec>
    requires k <= |lg|
  {
    if k == 0 then [] else AllRecs(lg, k - 1) + FileRecs(lg[k - 1].file)
  }

  function OfEpoch(log: seq<LogRec>, e: nat): seq<LogRec> {
    if log == [] then []
    else OfEpoch(log[..|log| - 1], e) + (if log[|log| - 1].ver.epoch == e then [log[|log| - 1]] else [])
  }

  /** One batch per epoch up to `d`: the records of that epoch from all files, sorted by TID in some way. */
  predicate Batches(lg: seq<Logger>, d: nat, batches: seq<seq<LogRec>>) {
    |batches| == d + 1
    && forall e :: 0 <= e <= d ==>
        multiset(batches[e]) == multiset(OfEpoch(AllRecs(lg, |lg|), e)) && R.ByTid(batches[e])
  }

  function Flatten(batches: seq<seq<LogRec>>): seq<LogRec> {
    if batches == [] then [] else Flatten(batches[..|batches| - 1]) + batches[|batches| - 1]
  }

  // ---------------------------------------------------------------- batches in a row are one sorted log

  lemma {:induction false} EpochCount(log: seq<LogRec>, e: nat, x: LogRec)
    ensures multiset(OfEpoch(log, e))[x] == if x.ver.epoch == e then multiset(log)[x] else 0
  {
    if log != [] {
      var front, last := log[..|log| - 1], log[|log| - 1];
      EpochCount(front, e, x);
      assert log == front + [last];
      assert OfEpoch(log, e) == OfEpoch(front, e) + (if last.ver.epoch == e then [last] else []);
    }
  }

  lemma BatchEpoch(lg: seq<Logger>, d: nat, batches: seq<seq<LogRec>>, e: nat, i: nat)
    requires Batches(lg, d, batches) && e <= d && i < |batches[e]|
    ensures batches[e][i].ver.epoch == e
  {
    EpochCount(AllRecs(lg, |lg|), e, batches[e][i]);
    assert batches[e][i] in multiset(batches[e]);
  }

  ghost predicate EpochsBelow(log: seq<LogRec>, n: nat) {
    forall i :: 0 <= i < |log| ==> log[i].ver.epoch < n
  }

  lemma {:induction false} FlattenSorted(lg: seq<Logger>, d: nat, batches: seq<seq<LogRec>>, n: nat)
    requires Batches(lg, d, batches) && n <= |batches|
    ensures R.ByTid(Flatten(batches[..n])) && EpochsBelow(Flatten(batches[..n]), n)
  {
    if n > 0 {
      FlattenSorted(lg, d, batches, n - 1);
      assert batches[..n][..n - 1] == batches[..n - 1];
      var last := batches[n - 1];
      forall i | 0 <= i < |last| ensures last[i].ver.epoch == n - 1 {
        BatchEpoch(lg, d, batches, n - 1, i);
      }
    }
  }

  lemma {:induction false} FlattenCount(lg: seq<Logger>, d: nat, batches: seq<seq<LogRec>>, n: nat, x: LogRec)
    requires Batches(lg, d, batches) && n <= |batches|
    ensures multiset(Flatten(batches[..n]))[x] == if x.ver.epoch < n then multiset(AllRecs(lg, |lg|))[x] else 0
  {
    if n > 0 {
      FlattenCount(lg, d, batches, n - 1, x);
      assert batches[..n][..n - 1] == batches[..n - 1];
      EpochCount(AllRecs(lg, |lg|), n - 1, x);
    }
  }

  // ---------------------------------------------------------------- the files, worker by worker

  /** How often record `x` occurs. */
  function Count(log: seq<LogRec>, x: LogRec): nat { multiset(log)[x] }

  lemma CountConcat(a: seq<LogRec>, b: seq<LogRec>, x: LogRec)
    ensures Count(a + b, x) == Count(a, x) + Count(b, x)
  {
  }

  function Only(c: bool, n: nat): nat { if c then n else 0 }

  /** How often a file holds `x` for the first `n` workers. */
  function ByWorker(file: seq<Buffer>, n: nat, x: LogRec): nat {
    if n == 0 then 0 else ByWorker(file, n - 1, x) + Count(RecsOf(file, n - 1), x)
  }

  lemma RecsStep(file: seq<Buffer>, b: Buffer, w: nat, x: LogRec)
    ensures Count(RecsOf(file + [b], w), x) == Count(RecsOf(file, w), x) + Only(b.w == w, Count(b.recs, x))
  {
    assert (file + [b])[..|file|] == file;
  }

  lemma {:induction false} ByWorkerStep(file: seq<Buffer>, b: Buffer, n: nat, x: LogRec)
    ensures ByWorker(file + [b], n, x) == ByWorker(file, n, x) + Only(b.w < n, Count(b.recs, x))
  {
    hide RecsOf, Count;
    if n > 0 {
      ByWorkerStep(file, b, n - 1, x);
      RecsStep(file, b, n - 1, x);
    }
  }

  lemma {:induction false} ByWorkerNone(n: nat, x: LogRec)
    ensures ByWorker([], n, x) == 0
  {
    if n > 0 { ByWorkerNone(n - 1, x); }
  }

  lemma {:induction false} FileByWorker(file: seq<Buffer>, n: nat, x: LogRec)
    requires forall i :: 0 <= i < |file| ==> file[i].w < n
    ensures Count(FileRecs(file), x) == ByWorker(file, n, x)
  {
    if file == [] {
      ByWorkerNone(n, x);
    } else {
      hide ByWorker, Count;
      var front, b := file[..|file| - 1], file[|file| - 1];
      FileByWorker(front, n, x);
      ByWorkerStep(front, b, n, x);
      CountConcat(FileRecs(front), b.recs, x);
      assert front + [b] == file;
    }
  }

  /** Worker `w`'s records `x`, if its file is among the first `k`. */
  function HeldBy(j: State, k: nat, w: nat, x: LogRec): nat
    requires WellFormed(j) && w < |j.wp|
  {
    Only(j.loggerOf[w] < k, Count(RecsOf(j.lg[j.loggerOf[w]].file, w), x))
  }

  /** The same for the first `n` workers together. */
  function Held(j: State, k: nat, n: nat, x: LogRec): nat
    requires WellFormed(j) && n <= |j.wp|
  {
    if n == 0 then 0 else Held(j, k, n - 1, x) + HeldBy(j, k, n - 1, x)
  }

  lemma {:induction false} OnlyOwn(file: seq<Buffer>, w: nat)
    requires forall i :: 0 <= i < |file| ==> file[i].w != w
    ensures RecsOf(file, w) == []
  {
    if file != [] { OnlyOwn(file[..|file| - 1], w); }
  }

  lemma HeldByStep(j: State, k: nat, w: nat, x: LogRec)
    requires WellFormed(j) && w < |j.wp| && k < |j.lg|
    requires forall i :: 0 <= i < |j.lg[k].file| ==>
          j.lg[k].file[i].w < |j.loggerOf| && j.loggerOf[j.lg[k].file[i].w] == k
    ensures HeldBy(j, k + 1, w, x) == HeldBy(j, k, w, x) + Count(RecsOf(j.lg[k].file, w), x)
  {
    if j.loggerOf[w] != k { OnlyOwn(j.lg[k].file, w); }
  }

  lemma {:induction false} HeldStep(j: State, k: nat, n: nat, x: LogRec)
    requires WellFormed(j) && n <= |j.wp| && k < |j.lg|
    requires forall i :: 0 <= i < |j.lg[k].file| ==>
          j.lg[k].file[i].w < |j.loggerOf| && j.loggerOf[j.lg[k].file[i].w] == k
    ensures Held(j, k + 1, n, x) == Held(j, k, n, x) + ByWorker(j.lg[k].file, n, x)
  {
    hide RecsOf, HeldBy, Count;
    if n > 0 {
      HeldStep(j, k, n - 1, x);
      HeldByStep(j, k, n - 1, x);
    }
  }

  lemma {:induction false} HeldNone(j: State, n: nat, x: LogRec)
    requires WellFormed(j) && n <= |j.wp|
    ensures Held(j, 0, n, x) == 0
  {
    if n > 0 { HeldNone(j, n - 1, x); }
  }

  lemma FileOwners(j: State, k: nat)
    requires PInv(j) && k < |j.lg|
    ensures WellFormed(j)
    ensures forall i :: 0 <= i < |j.lg[k].file| ==>
          j.lg[k].file[i].w < |j.loggerOf| && j.loggerOf[j.lg[k].file[i].w] == k
  {
    assert PQueue(j, k);
  }

  lemma AllRecsStep(lg: seq<Logger>, k: nat, x: LogRec)
    requires 0 < k <= |lg|
    ensures Count(AllRecs(lg, k), x) == Count(AllRecs(lg, k - 1), x) + Count(FileRecs(lg[k - 1].file), x)
  {
    CountConcat(AllRecs(lg, k - 1), FileRecs(lg[k - 1].file), x);
  }

  lemma AllNone(j: State, x: LogRec)
    requires WellFormed(j)
    ensures Count(AllRecs(j.lg, 0), x) == Held(j, 0, |j.wp|, x)
  {
    HeldNone(j, |j.wp|, x);
  }

  lemma HeldMore(j: State, k: nat, x: LogRec)
    requires PInv(j) && WellFormed(j) && 0 < k <= |j.lg|
    ensures Held(j, k, |j.wp|, x) == Held(j, k - 1, |j.wp|, x) + Count(FileRecs(j.lg[k - 1].file), x)
  {
    assert |j.loggerOf| == |j.wp|;
    FileOwners(j, k - 1);
    hide PInv, Held, ByWorker, Count, FileRecs, WellFormed;
    FileByWorker(j.lg[k - 1].file, |j.wp|, x);
    HeldStep(j, k - 1, |j.wp|, x);
  }

  lemma {:induction false} AllIsHeld(j: State, k: nat, x: LogRec)
    requires PInv(j) && WellFormed(j) && k <= |j.lg|
    ensures Count(AllRecs(j.lg, k), x) == Held(j, k, |j.wp|, x)
  {
    hide PInv, Held, Count, AllRecs, FileRecs;
    if k == 0 {
      AllNone(j, x);
    } else {
      AllIsHeld(j, k - 1, x);
      AllRecsStep(j.lg, k, x);
      HeldMore(j, k, x);
    }
  }

  // ---------------------------------------------------------------- the serial order, worker by worker

  /** How often the first `n` transactions of workers below `w` log `x`. */
  function Committed(order: seq<Entry>, n: nat, w: nat, x: LogRec): nat
    requires n <= |order|
  {
    if w == 0 then 0 else Committed(order, n, w - 1, x) + Count(WorkerLog(order, n, w - 1), x)
  }

  lemma {:induction false} CommittedNone(order: seq<Entry>, w: nat, x: LogRec)
    ensures Committed(order, 0, w, x) == 0
  {
    if w > 0 { CommittedNone(order, w - 1, x); }
  }

  function LogAt(e: Entry): seq<LogRec> { if e.status.Committed? then LogOf(e.wset, e.ver) else [] }

  lemma WorkerLogStep(order: seq<Entry>, n: nat, w: nat, x: LogRec)
    requires n < |order|
    ensures Count(WorkerLog(order, n + 1, w), x) == Count(WorkerLog(order, n, w), x)
          + Only(order[n].w == w, Count(LogAt(order[n]), x))
  {
  }

  lemma {:induction false} CommittedStep(order: seq<Entry>, n: nat, w: nat, x: LogRec)
    requires n < |order|
    ensures Committed(order, n + 1, w, x) == Committed(order, n, w, x) + Only(order[n].w < w, Count(LogAt(order[n]), x))
  {
    hide WorkerLog, LogAt, Count;
    if w > 0 {
      CommittedStep(order, n, w - 1, x);
      WorkerLogStep(order, n, w - 1, x);
    }
  }

  lemma PrefixStep(order: seq<Entry>, n: nat, x: LogRec)
    requires 0 < n <= |order|
    ensures Count(R.PrefixLog(order, n), x) == Count(R.PrefixLog(order, n - 1), x) + Count(LogAt(order[n - 1]), x)
  {
    assert R.PrefixLog(order, n) == R.PrefixLog(order, n - 1) + LogAt(order[n - 1]);
  }

  lemma EntryWorker(s: Silo.State, p: nat)
    requires Inv(s) && p < |s.order|
    ensures s.order[p].w < |s.workers|
  {
    assert OInv(s, p);
  }

  lemma PrefixNone(order: seq<Entry>, w: nat, x: LogRec)
    ensures Count(R.PrefixLog(order, 0), x) == Committed(order, 0, w, x)
  {
    CommittedNone(order, w, x);
  }

  lemma {:induction false} PrefixByWorker(s: Silo.State, n: nat, x: LogRec)
    requires Inv(s) && n <= |s.order|
    ensures Count(R.PrefixLog(s.order, n), x) == Committed(s.order, n, |s.workers|, x)
  {
    hide Inv, Committed, R.PrefixLog, LogAt, WorkerLog, Count;
    if n == 0 {
      PrefixNone(s.order, |s.workers|, x);
    } else {
      PrefixByWorker(s, n - 1, x);
      EntryWorker(s, n - 1);
      CommittedStep(s.order, n - 1, |s.workers|, x);
      PrefixStep(s.order, n, x);
    }
  }

  // ---------------------------------------------------------------- both agree up to the durable epoch

  /** Records after the first `n` transactions are of later epochs. */
  lemma {:induction false} LaterEpochs(s: Silo.State, n: nat, m: nat, d: nat, w: nat, i: nat)
    requires Inv(s) && n <= m <= |s.order| && forall p :: n <= p < m ==> s.order[p].epoch > d
    requires |WorkerLog(s.order, n, w)| <= i < |WorkerLog(s.order, m, w)|
    ensures WorkerLog(s.order, m, w)[i].ver.epoch > d
  {
    if m > n {
      assert OInv(s, m - 1);
      if i < |WorkerLog(s.order, m - 1, w)| {
        LaterEpochs(s, n, m - 1, d, w, i);
      }
    }
  }

  lemma CountPrefix(a: seq<LogRec>, b: seq<LogRec>, x: LogRec)
    requires a <= b && forall i :: |a| <= i < |b| ==> b[i] != x
    ensures Count(b, x) == Count(a, x)
  {
    assert b == a + b[|a|..];
    assert x !in b[|a|..];
  }

  /** For a durable epoch, a worker's records in its file are its committed ones and no others. */
  lemma WorkerAgrees(j: State, d: nat, w: nat, x: LogRec)
    requires PInv(j) && w < |j.wp| && d <= j.dur && x.ver.epoch <= d
    ensures Count(RecsOf(j.lg[j.loggerOf[w]].file, w), x) == Count(WorkerLog(j.s.order, PrefixLen(j.s.order, d), w), x)
  {
    hide RecsOf, WorkerLog, InTransit;
    var n, all := PrefixLen(j.s.order, d), WorkerLog(j.s.order, |j.s.order|, w);
    var file, log := RecsOf(j.lg[j.loggerOf[w]].file, w), WorkerLog(j.s.order, n, w);
    DurableNow(j, d);
    ConservedNow(j, w);
    forall i | |log| <= i < |file| ensures file[i] != x {
      LaterEpochs(j.s, n, |j.s.order|, d, w, i);
      assert file[i] == all[i];
    }
    CountPrefix(log, file, x);
  }

  lemma {:induction false} HeldAgrees(j: State, d: nat, n: nat, x: LogRec)
    requires PInv(j) && WellFormed(j) && n <= |j.wp| && d <= j.dur && x.ver.epoch <= d
    ensures Held(j, |j.lg|, n, x) == Committed(j.s.order, PrefixLen(j.s.order, d), n, x)
  {
    hide PInv, RecsOf, WorkerLog, PrefixLen, Count;
    if n > 0 {
      HeldAgrees(j, d, n - 1, x);
      WorkerAgrees(j, d, n - 1, x);
    }
  }

  lemma {:induction false} PrefixEpochs(s: Silo.State, n: nat, d: nat, x: LogRec)
    requires Inv(s) && n <= |s.order| && forall p :: 0 <= p < n ==> s.order[p].epoch <= d
    requires x in R.PrefixLog(s.order, n)
    ensures x.ver.epoch <= d
  {
    assert OInv(s, n - 1);
    if x in R.PrefixLog(s.order, n - 1) {
      PrefixEpochs(s, n - 1, d, x);
    } else {
      assert x in LogOf(s.order[n - 1].wset, s.order[n - 1].ver);
    }
  }

  lemma BatchCount(j: State, d: nat, batches: seq<seq<LogRec>>, x: LogRec)
    requires PInv(j) && WellFormed(j) && d <= j.dur && Batches(j.lg, d, batches)
    ensures Count(Flatten(batches), x) == Count(R.PrefixLog(j.s.order, PrefixLen(j.s.order, d)), x)
  {
    var n := PrefixLen(j.s.order, d);
    assert batches[..|batches|] == batches;
    FlattenCount(j.lg, d, batches, |batches|, x);
    AllIsHeld(j, |j.lg|, x);
    PrefixByWorker(j.s, n, x);
    if x.ver.epoch <= d {
      HeldAgrees(j, d, |j.wp|, x);
    } else if x in R.PrefixLog(j.s.order, n) {
      PrefixEpochs(j.s, n, d, x);
    }
  }

  /** The batches hold the records of the durable prefix, each exactly once. */
  lemma BatchesAreThePrefix(j: State, d: nat, batches: seq<seq<LogRec>>)
    requires PInv(j) && WellFormed(j) && d <= j.dur && Batches(j.lg, d, batches)
    ensures multiset(Flatten(batches)) == multiset(R.PrefixLog(j.s.order, PrefixLen(j.s.order, d)))
  {
    hide PInv, Batches, Flatten, R.PrefixLog, PrefixLen;
    var a, b := Flatten(batches), R.PrefixLog(j.s.order, PrefixLen(j.s.order, d));
    forall x: LogRec ensures multiset(a)[x] == multiset(b)[x] {
      BatchCount(j, d, batches, x);
    }
  }

  /**
    Replaying the batches rebuilds the transactions of epochs up to `d`, run one at a time, unless one of
    them writes a key that an earlier one deleted; then the replay dereferences a null pointer.
   */
  ghost predicate Rebuilds(j: State, d: nat, batches: seq<seq<LogRec>>) {
    var n := PrefixLen(j.s.order, d);
    R.Run(Some(j.s.init), Flatten(batches))
    == if R.NoWriteAfterDelete(j.s.order, n) then Some(ST.RunSerial(j.s.init, j.s.order, n)) else None
  }

  /**
    Crash recovery, end to end.  Crash in any reachable state and recover to any epoch `d` up to
    DurableEpoch, such as the one in the epoch file: replaying the log files epoch by epoch up to `d`, each
    epoch sorted by TID with ties in any order, onto the database the run started from rebuilds exactly
    the transactions of epochs up to `d`.
   */
  lemma CrashRecovery(g: Guards, j0: State, run: seq<P.Event>, d: nat, batches: seq<seq<LogRec>>)
    requires Guarded(g, j0) && P.Initial(j0) && P.After(g, j0, run).Some?
    requires d <= P.After(g, j0, run).value.dur && Batches(P.After(g, j0, run).value.lg, d, batches)
    ensures Rebuilds(P.After(g, j0, run).value, d, batches)
  {
    var j := P.After(g, j0, run).value;
    PAlways(g, j0, run);
    BatchesAreThePrefix(j, d, batches);
    FlattenSorted(j.lg, d, batches, |batches|);
    assert batches[..|batches|] == batches;
    R.ReplayRebuilds(j.s, PrefixLen(j.s.order, d), Flatten(batches));
  }

  // ---------------------------------------------------------------- the batch as written

  const INS: LogRec := LogRec(0, Insert, "a", Ver(1, 0))
  const UPD: LogRec := LogRec(0, Write, "b", Ver(2, 0))
  const DEL: LogRec := LogRec(0, Delete, "", Ver(3, 0))

  /** One key inserted, written and deleted in three epochs, one set each. */
  function ThreeSets(): seq<A.Group<LogRec>> { [A.Group(1, [INS]), A.Group(2, [UPD]), A.Group(3, [DEL])] }

  lemma WrittenBatches()
    ensures var g := ThreeSets();
            A.AsWritten([], g, 1) == [INS, UPD, DEL] && A.AsWritten([], g[1..], 2) == [UPD, DEL]
                && A.AsWritten([], g[2..], 3) == [DEL]
  {
    var g := ThreeSets();
    var g1, g2, g3 := g[1..], g[2..], g[3..];
    assert g1 == [g[1], g[2]] && g1[1..] == g2 && g2 == [g[2]] && g2[1..] == g3 && g3 == [];
    assert A.Everything(g3) == [];
    assert A.Everything(g2) == [DEL];
    assert A.Everything(g1) == [UPD] + A.Everything(g2);
    assert A.Everything(g) == [INS] + A.Everything(g1);
    assert [] + g == g && [] + g1 == g1 && [] + g2 == g2;
    SkipAll(g1, 1);
    SkipAll(g2, 2);
    SkipAll(g3, 3);
  }

  lemma IntendedBatches()
    ensures var g := ThreeSets(); A.Intended(g, 1) == [INS] && A.Intended(g, 2) == [UPD] && A.Intended(g, 3) == [DEL]
  {
    var g := ThreeSets();
    var g1, g2 := g[1..], g[2..];
    assert g1 == [g[1], g[2]] && g1[1..] == g2 && g2 == [g[2]] && g2[1..] == [];
    forall e: nat ensures A.Intended(g2, e) == if e == 3 then [DEL] else [] {
      assert A.Intended(g2[1..], e) == [];
    }
    forall e: nat | e != 1 ensures A.Intended(g1, e) == if e == 2 then [UPD] else if e == 3 then [DEL] else [] {
    }
    assert A.Intended(g1, 1) == [];
  }

  lemma SixReplays()
    ensures R.Run(Some(map[]), [INS, UPD, DEL] + [UPD, DEL] + [DEL]) == None
  {
    var three, four := [INS, UPD, DEL], [INS, UPD, DEL, UPD];
    ThreeReplays();
    assert four[..3] == three;
    assert R.Run(Some(map[]), four) == None;
    RestReplays(four);
    assert [INS, UPD, DEL] + [UPD, DEL] + [DEL] == four + [DEL, DEL];
  }

  lemma RestReplays(log: seq<LogRec>)
    requires R.Run(Some(map[]), log) == None
    ensures R.Run(Some(map[]), log + [DEL, DEL]) == None
  {
    R.RunConcat(Some(map[]), log, [DEL, DEL]);
    R.NoneStays([DEL, DEL]);
  }

  /**
    With the batches as the loop of verify_epoch_level_integrity builds them - every buffered set, the
    file having been read to its end at its first epoch - a log with no write after a delete crashes the
    replay; with the intended batches it replays to the empty map it stands for.
   */
  lemma RepeatedBatchCrashes()
    ensures var g := ThreeSets();
            && R.Run(Some(map[]), A.AsWritten([], g, 1) + A.AsWritten([], g[1..], 2) + A.AsWritten([], g[2..], 3))
                == None
            && R.Run(Some(map[]), A.Intended(g, 1) + A.Intended(g, 2) + A.Intended(g, 3)) == Some(map[])
  {
    WrittenBatches();
    IntendedBatches();
    SixReplays();
    ThreeReplays();
    assert [INS] + [UPD] + [DEL] == [INS, UPD, DEL];
    hide A.AsWritten, A.Intended, R.Run;
  }

  lemma SkipAll(g: seq<A.Group<LogRec>>, e: nat)
    requires A.NonEmpty(g) && !A.HasEpoch(g, e)
    ensures forall kept: seq<A.Group<LogRec>> :: A.NonEmpty(kept) ==> A.AsWritten(kept, g, e) == []
  {
    forall kept: seq<A.Group<LogRec>> | A.NonEmpty(kept) ensures A.AsWritten(kept, g, e) == [] {
      A.MoreIsWritten(kept, g, e);
    }
  }

  lemma ThreeReplays()
    ensures R.Run(Some(map[]), [INS, UPD, DEL]) == Some(map[])
  {
    var one, two, three := [INS], [INS, UPD], [INS, UPD, DEL];
    assert one[..0] == [] && two[..1] == one && three[..2] == two;
    assert R.Run(Some(map[]), one) == Some(map[0 := "a"]);
    assert map[0 := "a"][0 := "b"] == map[0 := "b"];
    assert R.Run(Some(map[]), two) == Some(map[0 := "b"]);
    assert map[0 := "b"] - {0} == map[];
  }
}
