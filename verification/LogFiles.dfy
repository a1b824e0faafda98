/**
  Whole log files between writer and recovery: when a logger's file is in epoch order, so that the
  checks of server/enclave/silo_r/silor_log_archive.cpp accept what
  server/enclave/silo_cc/silo_log_buffer.cpp wrote, and the epoch loop finds each epoch's records.
 */
module LogFiles {
  import opened Base
  import opened Tid
  import opened Silo
  import opened SiloInv
  import P = Pipeline
  import opened Pipeline
  import opened PipeInv
  import opened PipeTheorems
  import R = Recovery
  import C = LogChain
  import A = LogArchive

  type State = PipeInv.State

  // ---------------------------------------------------------------- the buffers of a file

  ghost predicate FilesFull(j: State) {
    forall l, i :: 0 <= l < |j.lg| && 0 <= i < |j.lg[l].file| ==> j.lg[l].file[i].recs != []
  }

  /** Only LogBuffer::write appends to a file. */
  lemma FilesStay(g: Guards, j: State, e: P.Event)
    requires P.Enabled(g, j, e) && !e.LogWrite?
    ensures |P.Step(g, j, e).lg| == |j.lg| && forall l :: 0 <= l < |j.lg| ==> P.Step(g, j, e).lg[l].file == j.lg[l].file
  {
    hide Silo.Step, Silo.Enabled, Enq, FlattenTo, QueueMin, UpTo, Above, Pushed;
  }

  lemma WriteIs(j: State, l: nat)
    requires WellFormed(j) && l < |j.lg| && j.lg[l].phase.LWriting?
          && (j.lg[l].phase.batch != [] ==> j.lg[l].phase.batch[0].w < |j.wp|)
    ensures |StepWrite(j, l).lg| == |j.lg| && forall m :: 0 <= m < |j.lg| && m != l ==>
          StepWrite(j, l).lg[m].file == j.lg[m].file
    ensures StepWrite(j, l).lg[l].file == j.lg[l].file + (if j.lg[l].phase.batch == [] then []
          else [j.lg[l].phase.batch[0]])
  {
  }

  /** No empty buffer reaches a file. */
  lemma FilesStayFull(g: Guards, j: State, e: P.Event)
    requires PInv(j) && FilesFull(j) && P.Enabled(g, j, e)
    ensures FilesFull(P.Step(g, j, e))
  {
    if e.LogWrite? {
      assert PQueue(j, e.l);
      WriteKeepsFull(j, e.l);
      hide PInv, PQueue, StepWrite;
    } else {
      FilesStay(g, j, e);
      hide PInv, P.Step, P.Enabled;
    }
  }

  lemma WriteKeepsFull(j: State, l: nat)
    requires FilesFull(j) && WellFormed(j) && l < |j.lg| && PQueue(j, l)
    requires j.lg[l].phase.LWriting? && (j.lg[l].phase.batch != [] ==> j.lg[l].phase.batch[0].w < |j.wp|)
    ensures FilesFull(StepWrite(j, l))
  {
    WriteIs(j, l);
    var batch := j.lg[l].phase.batch;
    assert batch != [] ==> BufOk(j, l, Batch(j.lg[l])[0]);
    hide StepWrite, PQueue;
    forall m, i | 0 <= m < |j.lg| && 0 <= i < |StepWrite(j, l).lg[m].file|
        ensures StepWrite(j, l).lg[m].file[i].recs != [] {
      if m != l {
        assert StepWrite(j, l).lg[m].file == j.lg[m].file;
      }
    }
  }

  lemma {:induction false} FilesAreFull(g: Guards, j0: State, run: seq<P.Event>)
    requires Guarded(g, j0) && P.Initial(j0) && P.After(g, j0, run).Some?
    ensures FilesFull(P.After(g, j0, run).value)
  {
    if run != [] {
      FilesAreFull(g, j0, run[..|run| - 1]);
      PAlways(g, j0, run[..|run| - 1]);
      hide PInv;
      FilesStayFull(g, P.After(g, j0, run[..|run| - 1]).value, run[|run| - 1]);
    }
  }

  // ---------------------------------------------------------------- epoch order

  ghost predicate Rising(log: seq<LogRec>) {
    forall i, k :: 0 <= i < k < |log| ==> log[i].ver.epoch <= log[k].ver.epoch
  }

  /** A worker's log never goes back an epoch. */
  lemma {:induction false} LogRises(s: Silo.State, n: nat, w: nat)
    requires Inv(s) && n <= |s.order|
    ensures Rising(WorkerLog(s.order, n, w))
  {
    if n > 0 {
      LogRises(s, n - 1, w);
      var before := WorkerLog(s.order, n - 1, w);
      forall i | 0 <= i < |before| ensures before[i].ver.epoch <= s.order[n - 1].epoch {
        forall p | 0 <= p < n - 1 ensures s.order[p].epoch <= s.order[n - 1].epoch {
          assert OInv(s, p) && OInv(s, n - 1);
        }
        LogEpochs(s, n - 1, s.order[n - 1].epoch, w, i);
      }
      assert OInv(s, n - 1);
    }
  }

  /** Buffers of worker `w` only, non-empty and of one epoch each. */
  ghost predicate Buffers(file: seq<Buffer>, w: nat) {
    forall i :: 0 <= i < |file| ==> file[i].w == w && file[i].recs != [] && OneEpoch(file[i])
  }

  ghost predicate InEpochOrder(file: seq<Buffer>) {
    forall i, k :: 0 <= i < k < |file| ==> file[i].epoch <= file[k].epoch
  }

  /** Every buffer's epoch occurs among the records. */
  lemma {:induction false} HasRecord(file: seq<Buffer>, w: nat, i: nat) returns (k: nat)
    requires Buffers(file, w) && i < |file|
    ensures k < |RecsOf(file, w)| && RecsOf(file, w)[k].ver.epoch == file[i].epoch
  {
    var front := file[..|file| - 1];
    if i == |file| - 1 {
      k := |RecsOf(front, w)|;
    } else {
      k := HasRecord(front, w, i);
    }
  }

  lemma {:induction false} RisingFile(file: seq<Buffer>, w: nat)
    requires Buffers(file, w) && Rising(RecsOf(file, w))
    ensures InEpochOrder(file)
  {
    if file != [] {
      var front, last := file[..|file| - 1], file[|file| - 1];
      assert RecsOf(file, w) == RecsOf(front, w) + last.recs;
      assert Rising(RecsOf(front, w)) by {
        forall i, k | 0 <= i < k < |RecsOf(front, w)|
            ensures RecsOf(front, w)[i].ver.epoch <= RecsOf(front, w)[k].ver.epoch {
          assert RecsOf(file, w)[i].ver.epoch <= RecsOf(file, w)[k].ver.epoch;
        }
      }
      RisingFile(front, w);
      forall i | 0 <= i < |front| ensures file[i].epoch <= last.epoch {
        var k := HasRecord(front, w, i);
        assert RecsOf(file, w)[k].ver.epoch <= RecsOf(file, w)[|RecsOf(front, w)|].ver.epoch;
      }
    }
  }

  /** What a file in order is: non-empty buffers of one epoch each, epochs never decreasing. */
  ghost predicate Ordered(file: seq<Buffer>) {
    (forall i :: 0 <= i < |file| ==> file[i].recs != [] && OneEpoch(file[i])) && InEpochOrder(file)
  }

  /** A logger without two workers writes in epoch order. */
  lemma SoleIsOrdered(j: State, l: nat)
    requires PInv(j) && FilesFull(j) && l < |j.lg| && Sole(j, l)
    ensures Ordered(j.lg[l].file)
  {
    var file := j.lg[l].file;
    assert PQueue(j, l);
    if file != [] {
      var w := file[0].w;
      assert Buffers(file, w);
      assert Rising(RecsOf(file, w)) by {
        hide RecsOf, WorkerLog, PQueue;
        ConservedNow(j, w);
        LogRises(j.s, |j.s.order|, w);
        hide PInv;
        var log := WorkerLog(j.s.order, |j.s.order|, w);
        assert RecsOf(file, w) <= log;
        assert forall i :: 0 <= i < |RecsOf(file, w)| ==> RecsOf(file, w)[i] == log[i];
      }
      hide PInv, PQueue;
      RisingFile(file, w);
    }
  }

  // ---------------------------------------------------------------- records as they are stored

  /** The name of a key, and the absent flag a commit word may carry. */
  datatype Codec = Codec(name: Rid -> string, absent: LogRec -> bool)

  function OpName(op: Op): string {
    match op case Write => "WRITE" case Insert => "INSERT" case Delete => "DELETE"
  }

  /** The TID word of a record: lock clear, latest set. */
  function TidOf(c: Codec, r: LogRec): nat { Obj(Word(false, true, c.absent(r), r.ver.tid, r.ver.epoch)) }

  function Stored(c: Codec, r: LogRec): C.Rec { C.Rec(TidOf(c, r), OpName(r.op), c.name(r.r), r.val) }

  function StoredAll(c: Codec, log: seq<LogRec>): (recs: seq<C.Rec>)
    ensures |recs| == |log|
    ensures forall i :: 0 <= i < |log| ==> recs[i] == Stored(c, log[i])
  {
    seq(|log|, i requires 0 <= i < |log| => Stored(c, log[i]))
  }

  /** A file as the sets of records its buffers are written as. */
  function Sets(c: Codec, file: seq<Buffer>): (groups: seq<seq<C.Rec>>)
    ensures |groups| == |file|
    ensures forall i :: 0 <= i < |file| ==> groups[i] == StoredAll(c, file[i].recs)
  {
    seq(|file|, i requires 0 <= i < |file| => StoredAll(c, file[i].recs))
  }

  /** The word tells the epoch, and words in order are versions in order. */
  lemma WordTells(c: Codec, a: LogRec, b: LogRec)
    ensures C.EpochOf(Stored(c, a)) == a.ver.epoch
    ensures TidOf(c, a) <= TidOf(c, b) ==> AtMost(a.ver, b.ver)
    ensures TidOf(c, a) == TidOf(c, b) ==> a.ver == b.ver
  {
    var low := a.ver.tid * 8 + Bit(c.absent(a)) * 4 + 2;
    assert low < 0x1_0000_0000 && TidOf(c, a) == a.ver.epoch * 0x1_0000_0000 + low;
    assert TidOf(c, b) == b.ver.epoch * 0x1_0000_0000 + b.ver.tid * 8 + Bit(c.absent(b)) * 4 + 2;
  }

  /** With distinct key names nothing is lost in storing. */
  lemma StoredOnce(c: Codec, a: LogRec, b: LogRec)
    requires forall r, q :: c.name(r) == c.name(q) ==> r == q
    requires Stored(c, a) == Stored(c, b)
    ensures a == b
  {
    WordTells(c, a, b);
    assert a.op == b.op by {
      assert OpName(a.op)[0] == OpName(b.op)[0];
    }
  }

  lemma SetsInOrder(c: Codec, file: seq<Buffer>)
    requires Ordered(file)
    ensures A.InOrder(Sets(c, file))
    ensures forall i :: 0 <= i < |file| ==> A.GroupEpoch(Sets(c, file)[i]) == file[i].epoch
  {
    var groups := Sets(c, file);
    forall i, k | 0 <= i < |groups| && 0 <= k < |groups[i]| ensures C.EpochOf(groups[i][k]) == file[i].epoch {
      WordTells(c, file[i].recs[k], file[i].recs[k]);
      assert groups[i][k] == Stored(c, file[i].recs[k]);
    }
    forall i | 0 <= i < |groups| ensures groups[i] != [] && A.GroupEpoch(groups[i]) == file[i].epoch {
      assert groups[i][0] == Stored(c, file[i].recs[0]);
    }
  }

  // ---------------------------------------------------------------- one epoch of a file

  lemma {:induction false} FileRecsJoin(a: seq<Buffer>, b: seq<Buffer>)
    ensures R.FileRecs(a + b) == R.FileRecs(a) + R.FileRecs(b)
  {
    if b == [] {
      assert a + b == a;
    } else {
      assert (a + b)[..|a + b| - 1] == a + b[..|b| - 1];
      FileRecsJoin(a, b[..|b| - 1]);
    }
  }

  lemma {:induction false} OfEpochJoin(a: seq<LogRec>, b: seq<LogRec>, e: nat)
    ensures R.OfEpoch(a + b, e) == R.OfEpoch(a, e) + R.OfEpoch(b, e)
  {
    if b == [] {
      assert a + b == a;
    } else {
      assert (a + b)[..|a + b| - 1] == a + b[..|b| - 1];
      OfEpochJoin(a, b[..|b| - 1], e);
    }
  }

  lemma {:induction false} OfEpochSame(log: seq<LogRec>, e: nat, same: bool)
    requires forall i :: 0 <= i < |log| ==> (log[i].ver.epoch == e <==> same)
    ensures R.OfEpoch(log, e) == if same then log else []
  {
    if log != [] {
      OfEpochSame(log[..|log| - 1], e, same);
      assert log == log[..|log| - 1] + [log[|log| - 1]];
    }
  }

  lemma {:induction false} OfEpochFile(file: seq<Buffer>, e: nat, same: bool)
    requires forall i :: 0 <= i < |file| ==> OneEpoch(file[i]) && (file[i].epoch == e <==> same)
    ensures R.OfEpoch(R.FileRecs(file), e) == if same then R.FileRecs(file) else []
  {
    if file != [] {
      var front, last := file[..|file| - 1], file[|file| - 1];
      OfEpochFile(front, e, same);
      OfEpochJoin(R.FileRecs(front), last.recs, e);
      OfEpochSame(last.recs, e, same);
    }
  }

  lemma StoredJoin(c: Codec, a: seq<LogRec>, b: seq<LogRec>)
    ensures StoredAll(c, a + b) == StoredAll(c, a) + StoredAll(c, b)
  {
    hide Stored;
  }

  lemma {:induction false} JoinedIs(c: Codec, file: seq<Buffer>)
    ensures A.Joined(Sets(c, file)) == StoredAll(c, R.FileRecs(file))
  {
    hide Stored;
    if file != [] {
      var first, rest := [file[0]], file[1..];
      assert Sets(c, file)[1..] == Sets(c, rest);
      JoinedIs(c, rest);
      assert file == first + rest && first[..0] == [];
      FileRecsJoin(first, rest);
      assert R.FileRecs(first) == file[0].recs;
      hide R.FileRecs;
      StoredJoin(c, file[0].recs, R.FileRecs(rest));
    }
  }

  lemma ThreeParts(x: seq<Buffer>, y: seq<Buffer>, z: seq<Buffer>, e: nat)
    ensures R.OfEpoch(R.FileRecs(x + y + z), e)
            == R.OfEpoch(R.FileRecs(x), e) + R.OfEpoch(R.FileRecs(y), e) + R.OfEpoch(R.FileRecs(z), e)
  {
    hide R.FileRecs, R.OfEpoch;
    FileRecsJoin(x + y, z);
    FileRecsJoin(x, y);
    OfEpochJoin(R.FileRecs(x + y), R.FileRecs(z), e);
    OfEpochJoin(R.FileRecs(x), R.FileRecs(y), e);
  }

  lemma EpochOfParts(file: seq<Buffer>, e: nat, m: nat, n: nat)
    requires m <= n <= |file|
    requires forall i :: 0 <= i < |file| ==> OneEpoch(file[i]) && (file[i].epoch == e <==> m <= i < n)
    ensures R.OfEpoch(R.FileRecs(file), e) == R.FileRecs(file[m..n])
  {
    hide OneEpoch, R.FileRecs, R.OfEpoch;
    var x, y, z := file[..m], file[m..n], file[n..];
    OfEpochFile(x, e, false);
    OfEpochFile(y, e, true);
    OfEpochFile(z, e, false);
    assert file == x + y + z;
    ThreeParts(x, y, z, e);
  }

  /** The buffers of epochs below `n` are the first ones. */
  lemma BelowEpoch(c: Codec, file: seq<Buffer>, n: nat)
    requires Ordered(file)
    ensures A.InOrder(Sets(c, file))
    ensures forall i :: 0 <= i < |file| ==> (i < A.Below(Sets(c, file), n) <==> file[i].epoch < n)
  {
    SetsInOrder(c, file);
    hide A.InOrder, A.GroupEpoch, OneEpoch;
    var k := A.Below(Sets(c, file), n);
    forall i | 0 <= i < |file| ensures i < k <==> file[i].epoch < n {
      if i >= k {
        assert file[k].epoch <= file[i].epoch;
      }
    }
  }

  lemma SetsCut(c: Codec, file: seq<Buffer>, m: nat, n: nat)
    requires m <= n <= |file|
    ensures Sets(c, file)[m..n] == Sets(c, file[m..n])
  {
    hide StoredAll;
  }

  /** The sets of epoch `e` hold the records of epoch `e`. */
  lemma SliceIsEpoch(c: Codec, file: seq<Buffer>, e: nat)
    requires Ordered(file)
    ensures A.InOrder(Sets(c, file))
          && A.Joined(A.Slice(Sets(c, file), e)) == StoredAll(c, R.OfEpoch(R.FileRecs(file), e))
  {
    BelowEpoch(c, file, e);
    BelowEpoch(c, file, e + 1);
    hide A.InOrder, R.FileRecs, R.OfEpoch, A.Joined, A.Below, StoredAll, OneEpoch;
    A.BelowGrows(Sets(c, file), e);
    var m, n := A.Below(Sets(c, file), e), A.Below(Sets(c, file), e + 1);
    SliceParts(c, file, e, m, n);
    SetsCut(c, file, m, n);
  }

  lemma SliceParts(c: Codec, file: seq<Buffer>, e: nat, m: nat, n: nat)
    requires Ordered(file) && m <= n <= |file|
    requires forall i :: 0 <= i < |file| ==> (i < m <==> file[i].epoch < e) && (i < n <==> file[i].epoch < e + 1)
    ensures A.Joined(Sets(c, file[m..n])) == StoredAll(c, R.OfEpoch(R.FileRecs(file), e))
  {
    hide R.FileRecs, R.OfEpoch, A.Joined, StoredAll;
    EpochOfParts(file, e, m, n);
    JoinedIs(c, file[m..n]);
  }

  // ---------------------------------------------------------------- recovery of all files

  /**
    Opening a file and running the epoch loop over epochs below `n`: the archive and each epoch's records, if
    no check fails.
   */
  function Read(h: C.Hasher, c: Codec, file: seq<Buffer>, p: C.Hash, n: nat): Option<(A.Archive, seq<seq<C.Rec>>)> {
    var a := A.Opened(h, Sets(c, file), p);
    if A.ArchiveOk(a) then A.Epochs(h, C.Tail(h, Sets(c, file), p), a, n) else None
  }

  /** A file in epoch order is read back: no check fails, and each epoch's batch is that epoch's records. */
  lemma OrderedReadsBack(h: C.Hasher, c: Codec, file: seq<Buffer>, p: C.Hash, n: nat)
    requires Ordered(file)
    ensures Read(h, c, file, p, n).Some? && |Read(h, c, file, p, n).value.1| == n
    ensures forall e :: 0 <= e < n ==> Read(h, c, file, p, n).value.1[e] == StoredAll(c, R.OfEpoch(R.FileRecs(file), e))
  {
    SetsInOrder(c, file);
    hide A.InOrder, A.GroupEpoch, A.Opened, A.Epochs, A.ArchiveOk, A.Joined, A.Slice, Ordered, A.After, A.Hit,
          R.OfEpoch, R.FileRecs, StoredAll;
    A.ReadsBack(h, Sets(c, file), p, C.Tail(h, Sets(c, file), p), n);
    var r := Read(h, c, file, p, n).value;
    forall e | 0 <= e < n ensures r.1[e] == StoredAll(c, R.OfEpoch(R.FileRecs(file), e)) {
      SliceIsEpoch(c, file, e);
    }
  }

  /** What the first `k` archives add to the batch of epoch `e`, when all checks pass. */
  function Gathered(h: C.Hasher, c: Codec, lg: seq<Logger>, p: C.Hash, d: nat, e: nat, k: nat): Option<seq<C.Rec>>
    requires k <= |lg| && e <= d
  {
    if k == 0 then Some([])
    else
      var before, r := Gathered(h, c, lg, p, d, e, k - 1), Read(h, c, lg[k - 1].file, p, d + 1);
      if before.Some? && r.Some? && e < |r.value.1| then Some(before.value + r.value.1[e]) else None
  }

  lemma OneMoreFile(c: Codec, lg: seq<Logger>, e: nat, k: nat)
    requires 0 < k <= |lg|
    ensures StoredAll(c, R.OfEpoch(R.AllRecs(lg, k), e))
            == StoredAll(c, R.OfEpoch(R.AllRecs(lg, k - 1), e)) + StoredAll(c, R.OfEpoch(R.FileRecs(lg[k - 1].file), e))
  {
    hide R.OfEpoch, R.FileRecs, StoredAll;
    OfEpochJoin(R.AllRecs(lg, k - 1), R.FileRecs(lg[k - 1].file), e);
    StoredJoin(c, R.OfEpoch(R.AllRecs(lg, k - 1), e), R.OfEpoch(R.FileRecs(lg[k - 1].file), e));
  }

  lemma GatherOne(h: C.Hasher, c: Codec, lg: seq<Logger>, p: C.Hash, d: nat, e: nat, k: nat)
    requires 0 < k <= |lg| && e <= d && Ordered(lg[k - 1].file) && Gathered(h, c, lg, p, d, e, k - 1).Some?
    ensures Gathered(h, c, lg, p, d, e, k)
            == Some(Gathered(h, c, lg, p, d, e, k - 1).value + StoredAll(c, R.OfEpoch(R.FileRecs(lg[k - 1].file), e)))
  {
    OrderedReadsBack(h, c, lg[k - 1].file, p, d + 1);
    hide Ordered, Read, R.OfEpoch, R.FileRecs, R.AllRecs, StoredAll;
  }

  lemma GatherNone(h: C.Hasher, c: Codec, lg: seq<Logger>, p: C.Hash, d: nat, e: nat)
    requires e <= d
    ensures Gathered(h, c, lg, p, d, e, 0) == Some(StoredAll(c, R.OfEpoch(R.AllRecs(lg, 0), e)))
  {
    hide Read;
  }

  lemma {:induction false} GatheredIs(h: C.Hasher, c: Codec, lg: seq<Logger>, p: C.Hash, d: nat, e: nat, k: nat)
    requires k <= |lg| && e <= d && forall l :: 0 <= l < |lg| ==> Ordered(lg[l].file)
    ensures Gathered(h, c, lg, p, d, e, k) == Some(StoredAll(c, R.OfEpoch(R.AllRecs(lg, k), e)))
  {
    hide Ordered, Read, R.OfEpoch, R.FileRecs, R.AllRecs, StoredAll, Gathered;
    if k == 0 {
      GatherNone(h, c, lg, p, d, e);
    } else {
      GatheredIs(h, c, lg, p, d, e, k - 1);
      GatherOne(h, c, lg, p, d, e, k);
      OneMoreFile(c, lg, e, k);
    }
  }

  /** `sorted` is a batch after std::sort by TID word, equal words in any order. */
  predicate SortOf(batch: seq<C.Rec>, sorted: seq<C.Rec>) {
    multiset(sorted) == multiset(batch) && forall i, k :: 0 <= i < k < |sorted| ==> sorted[i].tid <= sorted[k].tid
  }

  lemma TakeOut(c: Codec, log: seq<LogRec>, i: nat)
    requires i < |log|
    ensures var rest := log[..i] + log[i + 1..];
            && multiset(StoredAll(c, log)) == multiset(StoredAll(c, rest)) + multiset{Stored(c, log[i])}
            && multiset(log) == multiset(rest) + multiset{log[i]}
  {
    hide Stored;
    var front, back := log[..i], log[i + 1..];
    assert log == front + [log[i]] + back;
    StoredJoin(c, front, back);
    StoredJoin(c, front + [log[i]], back);
    StoredJoin(c, front, [log[i]]);
    assert StoredAll(c, [log[i]]) == [Stored(c, log[i])];
  }

  lemma Cancel<T>(a: multiset<T>, b: multiset<T>, x: T)
    requires a + multiset{x} == b + multiset{x}
    ensures a == b
  {
    assert a == a + multiset{x} - multiset{x};
  }

  /** The log records a rearranged batch stands for. */
  lemma {:induction false} Unstore(c: Codec, log: seq<LogRec>, recs: seq<C.Rec>) returns (b: seq<LogRec>)
    requires multiset(recs) == multiset(StoredAll(c, log))
    ensures StoredAll(c, b) == recs && multiset(b) == multiset(log)
  {
    hide Stored;
    if recs == [] {
      b := [];
      assert |multiset(StoredAll(c, log))| == 0;
    } else {
      var front, last := recs[..|recs| - 1], recs[|recs| - 1];
      assert recs == front + [last];
      assert last in multiset(recs);
      var i :| 0 <= i < |log| && StoredAll(c, log)[i] == last;
      TakeOut(c, log, i);
      Cancel(multiset(front), multiset(StoredAll(c, log[..i] + log[i + 1..])), last);
      var rest := Unstore(c, log[..i] + log[i + 1..], front);
      b := rest + [log[i]];
      StoredJoin(c, rest, [log[i]]);
      assert StoredAll(c, [log[i]]) == [last];
    }
  }

  /** Each file's batch for each epoch, gathered over all files and sorted. */
  ghost predicate Recovers(h: C.Hasher, c: Codec, j: State, p: C.Hash, d: nat, sorted: seq<seq<C.Rec>>) {
    && |sorted| == d + 1
    && forall e :: 0 <= e <= d ==>
         Gathered(h, c, j.lg, p, d, e, |j.lg|).Some? && SortOf(Gathered(h, c, j.lg, p, d, e, |j.lg|).value, sorted[e])
  }

  lemma FilesOrdered(j: State)
    requires PInv(j) && FilesFull(j) && NoSharing(j)
    ensures forall l :: 0 <= l < |j.lg| ==> Ordered(j.lg[l].file)
  {
    forall l | 0 <= l < |j.lg| ensures Ordered(j.lg[l].file) {
      hide PInv, FilesFull, Ordered;
      SoleIsOrdered(j, l);
    }
  }

  /** A sorted batch of stored records is a sorted batch of log records. */
  lemma Unsort(c: Codec, log: seq<LogRec>, sorted: seq<C.Rec>) returns (b: seq<LogRec>)
    requires SortOf(StoredAll(c, log), sorted)
    ensures StoredAll(c, b) == sorted && multiset(b) == multiset(log) && R.R.ByTid(b)
  {
    b := Unstore(c, log, sorted);
    forall i, k | 0 <= i < k < |b| ensures AtMost(b[i].ver, b[k].ver) {
      assert sorted[i] == Stored(c, b[i]) && sorted[k] == Stored(c, b[k]);
      WordTells(c, b[i], b[k]);
    }
  }

  /** The sorted batches stand for exactly one choice of `Recovery.Batches`. */
  lemma {:induction false} Unsorts(h: C.Hasher, c: Codec, j: State, p: C.Hash, d: nat, sorted: seq<seq<C.Rec>>,
                                   n: nat) returns (batches: seq<seq<LogRec>>)
    requires (forall l :: 0 <= l < |j.lg| ==> Ordered(j.lg[l].file)) && Recovers(h, c, j, p, d, sorted) && n <= d + 1
    ensures |batches| == n
    ensures forall e :: 0 <= e < n ==>
              && StoredAll(c, batches[e]) == sorted[e] && R.R.ByTid(batches[e])
              && multiset(batches[e]) == multiset(R.OfEpoch(R.AllRecs(j.lg, |j.lg|), e))
  {
    hide Ordered, R.OfEpoch, R.AllRecs, StoredAll, Gathered, R.R.ByTid, SortOf;
    batches := [];
    if n > 0 {
      var before := Unsorts(h, c, j, p, d, sorted, n - 1);
      GatheredIs(h, c, j.lg, p, d, n - 1, |j.lg|);
      var b := Unsort(c, R.OfEpoch(R.AllRecs(j.lg, |j.lg|), n - 1), sorted[n - 1]);
      batches := before + [b];
    }
  }

  /**
    Crash in any reachable state of a server in which no two workers share a logger.  Every check on every
    file passes, and for each epoch the batch gathered over all files is that epoch's records.
   */
  lemma FilesReadBack(g: Guards, j0: State, run: seq<P.Event>, h: C.Hasher, c: Codec, p: C.Hash, d: nat)
    requires Guarded(g, j0) && P.Initial(j0) && P.After(g, j0, run).Some? && NoSharing(P.After(g, j0, run).value)
    ensures var lg := P.After(g, j0, run).value.lg;
            && (forall l :: 0 <= l < |lg| ==> Ordered(lg[l].file) && Read(h, c, lg[l].file, p, d + 1).Some?)
            && (forall e :: 0 <= e <= d ==>
                Gathered(h, c, lg, p, d, e, |lg|) == Some(StoredAll(c, R.OfEpoch(R.AllRecs(lg, |lg|), e))))
  {
    var j := P.After(g, j0, run).value;
    PAlways(g, j0, run);
    FilesAreFull(g, j0, run);
    FilesOrdered(j);
    hide PInv, FilesFull, NoSharing, Ordered, R.OfEpoch, R.AllRecs, StoredAll, Gathered, Read, P.After, P.Initial;
    forall l | 0 <= l < |j.lg| ensures Read(h, c, j.lg[l].file, p, d + 1).Some? {
      OrderedReadsBack(h, c, j.lg[l].file, p, d + 1);
    }
    forall e | 0 <= e <= d ensures Gathered(h, c, j.lg, p, d, e, |j.lg|)
        == Some(StoredAll(c, R.OfEpoch(R.AllRecs(j.lg, |j.lg|), e))) {
      GatheredIs(h, c, j.lg, p, d, e, |j.lg|);
    }
  }

  /**
    From worker to recovered database, through the files.  In such a state, for any epoch `d` up to the
    durable one: whichever way the batches of epochs up to `d` are sorted by TID word, the log records they
    stand for rebuild the transactions of those epochs.
   */
  lemma RecoveryFromFiles(g: Guards, j0: State, run: seq<P.Event>, h: C.Hasher, c: Codec, p: C.Hash, d: nat,
                          sorted: seq<seq<C.Rec>>)
    returns (batches: seq<seq<LogRec>>)
    requires Guarded(g, j0) && P.Initial(j0) && P.After(g, j0, run).Some? && NoSharing(P.After(g, j0, run).value)
    requires d <= P.After(g, j0, run).value.dur && Recovers(h, c, P.After(g, j0, run).value, p, d, sorted)
    ensures |batches| == |sorted| && forall e :: 0 <= e < |batches| ==> StoredAll(c, batches[e]) == sorted[e]
    ensures R.Rebuilds(P.After(g, j0, run).value, d, batches)
  {
    var j := P.After(g, j0, run).value;
    FilesReadBack(g, j0, run, h, c, p, d);
    hide NoSharing, Ordered, P.After, P.Initial, Gathered, Read, StoredAll, R.OfEpoch, R.AllRecs;
    batches := Unsorts(h, c, j, p, d, sorted, d + 1);
    R.CrashRecovery(g, j0, run, d, batches);
  }

  /**
    The final check, with a hash that tells the last set from the others: a file in epoch order is accepted if and
    only if its last buffer is of a durable epoch.
   */
  lemma AcceptedIffFlushed(h: C.Hasher, c: Codec, file: seq<Buffer>, p: C.Hash, d: nat)
    requires Ordered(file) && file != []
    requires forall i :: 0 <= i < |file| - 1 ==>
          C.SetHash(h, Sets(c, file)[i]) != C.SetHash(h, Sets(c, file)[|file| - 1])
    ensures Read(h, c, file, p, d + 1).Some?
    ensures Read(h, c, file, p, d + 1).value.0.matched <==> file[|file| - 1].epoch <= d
  {
    SetsInOrder(c, file);
    hide A.InOrder, A.GroupEpoch, A.Opened, A.Epochs, A.ArchiveOk, Ordered, StoredAll;
    A.AcceptedIffDurable(h, Sets(c, file), p, d);
  }
}
