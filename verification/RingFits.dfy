/**
  The notification ring inside the pipeline (server/enclave/silo_cc/silo_log_buffer.cpp, pass_nid;
  silo_notifier.cpp, store and notify): for a logger without two workers every store finds the bucket it asserts,
  and the ring delivers what waits, in order.
 */
module RingFits {
  import opened Base
  import Silo
  import P = Pipeline
  import opened Pipeline
  import opened PipeInv
  import opened PipeTheorems
  import PL = PipeLogger
  import L = LogFiles
  import opened NidRing

  type State = PipeInv.State

  // ---------------------------------------------------------------- the ids in a ring

  function Tag(b: Bucket): (ids: seq<Nid>)
    ensures |ids| == |b.ids| && forall i :: 0 <= i < |ids| ==> ids[i] == Nid(b.ids[i], b.epoch)
  {
    seq(|b.ids|, i requires 0 <= i < |b.ids| => Nid(b.ids[i], b.epoch))
  }

  /** All ids of the ring with their epochs, bucket by bucket. */
  function Tagged(bs: seq<Bucket>): seq<Nid> { if bs == [] then [] else Tag(bs[0]) + Tagged(bs[1..]) }

  lemma Associate(a: seq<Nid>, b: seq<Nid>, c: seq<Nid>)
    ensures a + (b + c) == (a + b) + c
  {
  }

  lemma {:induction false} TaggedJoin(a: seq<Bucket>, b: seq<Bucket>)
    ensures Tagged(a + b) == Tagged(a) + Tagged(b)
  {
    hide Tag;
    if a == [] {
      assert a + b == b;
    } else {
      TaggedJoin(a[1..], b);
      assert (a + b)[0] == a[0] && (a + b)[1..] == a[1..] + b;
      Associate(Tag(a[0]), Tagged(a[1..]), Tagged(b));
    }
  }

  lemma {:induction false} TaggedNone(bs: seq<Bucket>)
    requires forall i :: 0 <= i < |bs| ==> bs[i].ids == []
    ensures Tagged(bs) == []
  {
    if bs != [] { TaggedNone(bs[1..]); }
  }

  /** The ids of one bucket are among them. */
  lemma {:induction false} TaggedAt(bs: seq<Bucket>, i: nat, k: nat)
    requires i < |bs| && k < |bs[i].ids|
    ensures Nid(bs[i].ids[k], bs[i].epoch) in Tagged(bs)
  {
    if i == 0 {
      assert Tag(bs[0])[k] in Tagged(bs);
    } else {
      TaggedAt(bs[1..], i - 1, k);
    }
  }

  ghost predicate AllOf(ids: seq<Nid>, e: nat) { forall i :: 0 <= i < |ids| ==> ids[i].epoch == e }
  ghost predicate AllWithin(ids: seq<Nid>, e: nat) { forall i :: 0 <= i < |ids| ==> ids[i].epoch <= e }

  /** Into the bucket of the newest epoch that holds ids. */
  lemma {:induction false} PutHere(bs: seq<Bucket>, ids: seq<Nid>, e: nat)
    requires Ascending(bs) && bs != [] && bs[0].epoch == e && AllOf(ids, e) && AllWithin(Tagged(bs), e)
    ensures Tagged(Put(bs, Ps(ids), e)) == Tagged(bs) + ids
  {
    forall i | 0 <= i < |bs[1..]| ensures bs[1..][i].ids == [] {
      if bs[i + 1].ids != [] {
        TaggedAt(bs, i + 1, 0);
      }
    }
    TaggedNone(bs[1..]);
    var here := Bucket(e, bs[0].ids + Ps(ids));
    assert Tag(here) == Tag(bs[0]) + ids;
    assert Put(bs, Ps(ids), e) == [here] + bs[1..];
    assert ([here] + bs[1..])[1..] == bs[1..];
  }

  /** Ids of the newest epoch go behind all others. */
  lemma {:induction false} PutTagged(bs: seq<Bucket>, ids: seq<Nid>, e: nat)
    requires Ascending(bs) && Accepts(bs, e) && AllOf(ids, e) && AllWithin(Tagged(bs), e)
    ensures Tagged(Put(bs, Ps(ids), e)) == Tagged(bs) + ids
  {
    if bs == [] {
      assert Tag(Bucket(e, Ps(ids))) == ids;
      assert [Bucket(e, Ps(ids))][1..] == [];
    } else if bs[0].epoch >= e {
      assert bs[0].epoch == e;
      PutHere(bs, ids, e);
    } else {
      TailAccepts(bs, e);
      TailWithin(bs, e);
      hide AllOf, AllWithin, Accepts, Tag, Ps;
      PutTagged(bs[1..], ids, e);
      assert ([bs[0]] + Put(bs[1..], Ps(ids), e))[1..] == Put(bs[1..], Ps(ids), e);
      Associate(Tag(bs[0]), Tagged(bs[1..]), ids);
    }
  }

  lemma {:induction false} TailWithin(bs: seq<Bucket>, e: nat)
    requires bs != [] && AllWithin(Tagged(bs), e)
    ensures AllWithin(Tagged(bs[1..]), e)
  {
    var rest := Tagged(bs[1..]);
    assert forall i :: 0 <= i < |rest| ==> rest[i] == Tagged(bs)[|Tag(bs[0])| + i];
  }

  lemma TailAccepts(bs: seq<Bucket>, e: nat)
    requires bs != [] && bs[0].epoch < e && Accepts(bs, e)
    ensures Accepts(bs[1..], e)
  {
    if Has(bs, e) {
      var i :| 0 <= i < |bs| && bs[i].epoch == e;
      assert bs[1..][i - 1].epoch == e;
    }
  }

  lemma {:induction false} UpToJoin(a: seq<Nid>, b: seq<Nid>, d: nat)
    ensures UpTo(a + b, d) == UpTo(a, d) + UpTo(b, d)
  {
    if a == [] {
      assert a + b == b;
    } else {
      UpToJoin(a[1..], b, d);
      assert (a + b)[0] == a[0] && (a + b)[1..] == a[1..] + b;
      Associate(if a[0].epoch <= d then [a[0]] else [], UpTo(a[1..], d), UpTo(b, d));
    }
  }

  lemma {:induction false} AboveJoin(a: seq<Nid>, b: seq<Nid>, d: nat)
    ensures Above(a + b, d) == Above(a, d) + Above(b, d)
  {
    if a == [] {
      assert a + b == b;
    } else {
      AboveJoin(a[1..], b, d);
      assert (a + b)[0] == a[0] && (a + b)[1..] == a[1..] + b;
      Associate(if a[0].epoch <= d then [] else [a[0]], Above(a[1..], d), Above(b, d));
    }
  }

  lemma {:induction false} AllIn(ids: seq<Nid>, d: nat)
    ensures AllWithin(ids, d) ==> UpTo(ids, d) == ids && Above(ids, d) == []
    ensures (forall i :: 0 <= i < |ids| ==> ids[i].epoch > d) ==> UpTo(ids, d) == [] && Above(ids, d) == ids
  {
    if ids != [] { AllIn(ids[1..], d); }
  }

  lemma {:induction false} TaggedEpochs(bs: seq<Bucket>, i: nat) returns (k: nat)
    requires i < |Tagged(bs)|
    ensures k < |bs| && Tagged(bs)[i].epoch == bs[k].epoch
  {
    if i < |Tag(bs[0])| {
      k := 0;
    } else {
      k := TaggedEpochs(bs[1..], i - |Tag(bs[0])|);
      k := k + 1;
    }
  }

  lemma {:induction false} DueTagged(bs: seq<Bucket>, d: nat)
    requires forall i :: 0 <= i < |bs| ==> bs[i].epoch <= d
    ensures Due(bs, d) == Ps(Tagged(bs))
  {
    if bs != [] {
      DueTagged(bs[1..], d);
      assert bs[0].ids == Ps(Tag(bs[0]));
      assert Ps(Tag(bs[0]) + Tagged(bs[1..])) == Ps(Tag(bs[0])) + Ps(Tagged(bs[1..]));
    }
  }

  lemma DueSide(a: seq<Bucket>, d: nat)
    requires forall i :: 0 <= i < |a| ==> a[i].epoch <= d
    ensures UpTo(Tagged(a), d) == Tagged(a) && Above(Tagged(a), d) == []
  {
    hide Tagged, UpTo, Above;
    forall i | 0 <= i < |Tagged(a)| ensures Tagged(a)[i].epoch <= d { var k := TaggedEpochs(a, i); }
    AllIn(Tagged(a), d);
  }

  lemma LaterSide(b: seq<Bucket>, d: nat)
    requires forall i :: 0 <= i < |b| ==> b[i].epoch > d
    ensures UpTo(Tagged(b), d) == [] && Above(Tagged(b), d) == Tagged(b)
  {
    hide Tagged, UpTo, Above;
    forall i | 0 <= i < |Tagged(b)| ensures Tagged(b)[i].epoch > d { var k := TaggedEpochs(b, i); }
    AllIn(Tagged(b), d);
  }

  /** Of the ids of two runs of buckets, due and not. */
  lemma PartsTagged(a: seq<Bucket>, b: seq<Bucket>, d: nat)
    requires (forall i :: 0 <= i < |a| ==> a[i].epoch <= d) && (forall i :: 0 <= i < |b| ==> b[i].epoch > d)
    ensures UpTo(Tagged(a + b), d) == Tagged(a) && Above(Tagged(a + b), d) == Tagged(b)
  {
    hide Tagged, UpTo, Above;
    DueSide(a, d);
    LaterSide(b, d);
    TaggedJoin(a, b);
    UpToJoin(Tagged(a), Tagged(b), d);
    AboveJoin(Tagged(a), Tagged(b), d);
  }

  lemma DueParts(bs: seq<Bucket>, d: nat)
    requires Ascending(bs)
    ensures forall i :: 0 <= i < |bs[..DueCount(bs, d)]| ==> bs[..DueCount(bs, d)][i].epoch <= d
    ensures forall i :: 0 <= i < |bs[DueCount(bs, d)..]| ==> bs[DueCount(bs, d)..][i].epoch > d
  {
  }

  lemma RotatedTagged(bs: seq<Bucket>, n: nat)
    requires n <= |bs|
    ensures Tagged(Rotated(bs, n)) == Tagged(bs[n..])
  {
    TaggedNone(Behind(bs, n));
    RotatedIs(bs, n);
    hide Tagged, Rotated, Behind;
    TaggedJoin(bs[n..], Behind(bs, n));
    assert Tagged(bs[n..]) + [] == Tagged(bs[n..]);
  }

  lemma FrontTagged(bs: seq<Bucket>, d: nat)
    requires Ascending(bs)
    ensures Due(bs, d) == Ps(Tagged(bs[..DueCount(bs, d)]))
  {
    DueParts(bs, d);
    AllDue(bs, DueCount(bs, d), d);
    hide Tagged, Due, Ascending;
    DueTagged(bs[..DueCount(bs, d)], d);
  }

  /** notify delivers the ids up to `d` and keeps the others, in order. */
  lemma NotifyTagged(bs: seq<Bucket>, d: nat)
    requires Ascending(bs)
    ensures Due(bs, d) == Ps(UpTo(Tagged(bs), d)) && Tagged(Rotated(bs, DueCount(bs, d))) == Above(Tagged(bs), d)
  {
    hide Tagged, Due, Rotated, UpTo, Above, DueCount;
    var n := DueCount(bs, d);
    DueBound(bs, d);
    DueParts(bs, d);
    FrontTagged(bs, d);
    hide Ascending;
    RotatedTagged(bs, n);
    PartsTagged(bs[..n], bs[n..], d);
    assert bs == bs[..n] + bs[n..];
  }

  lemma DueBound(bs: seq<Bucket>, d: nat)
    ensures DueCount(bs, d) <= |bs|
  {
  }

  // ---------------------------------------------------------------- no gap from `lo` on

  /** Every epoch from `lo` on has a bucket or lies beyond all of them. */
  ghost predicate Dense(bs: seq<Bucket>, lo: nat) { forall e :: e >= lo ==> Accepts(bs, e) }

  lemma PutDense(bs: seq<Bucket>, ids: seq<Id>, e: nat, lo: nat)
    requires Ascending(bs) && bs != [] && Dense(bs, lo) && e >= lo
    ensures Put(bs, ids, e) != [] && Ascending(Put(bs, ids, e)) && Dense(Put(bs, ids, e), e)
  {
    var k := FirstFrom(bs, e);
    PutIs(bs, ids, e, k);
    var bs' := Put(bs, ids, e);
    if k < |bs| {
      forall x | x >= e ensures Accepts(bs', x) {
        assert Accepts(bs, x);
        if Has(bs, x) {
          var i :| 0 <= i < |bs| && bs[i].epoch == x;
          assert bs'[i].epoch == x;
        }
      }
    } else {
      forall x | x >= e ensures Accepts(bs', x) {
        assert bs'[k].epoch == e;
      }
    }
  }

  function FirstFrom(bs: seq<Bucket>, e: nat): (k: nat)
    ensures k <= |bs| && (forall i :: 0 <= i < k ==> bs[i].epoch < e) && (k < |bs| ==> bs[k].epoch >= e)
  {
    if bs == [] || bs[0].epoch >= e then 0 else 1 + FirstFrom(bs[1..], e)
  }

  lemma RotateAccepts(bs: seq<Bucket>, n: nat, x: nat)
    requires bs != [] && n <= |bs| && Accepts(bs, x) && forall i :: 0 <= i < n ==> bs[i].epoch < x
    ensures Accepts(Rotated(bs, n), x)
  {
    var last, r := bs[|bs| - 1].epoch, Rotated(bs, n);
    if |bs| >= 2 {
      RotatedAt(bs, n);
      hide Rotated;
      if Has(bs, x) {
        var i :| 0 <= i < |bs| && bs[i].epoch == x;
        assert r[i - n] == Turn(bs, n, i - n);
      } else if x <= last + n {
        var i := |bs| - n + (x - last - 1);
        assert r[i] == Turn(bs, n, i);
      } else {
        assert r[|bs| - 1] == Turn(bs, n, |bs| - 1);
      }
    } else if Has(bs, x) {
      assert r == bs;
    }
  }

  lemma RotateDense(bs: seq<Bucket>, d: nat, lo: nat)
    requires Ascending(bs) && bs != [] && Dense(bs, lo) && d < lo
    ensures var r := Rotated(bs, DueCount(bs, d)); r != [] && Ascending(r) && Dense(r, lo)
  {
    var n := DueCount(bs, d);
    RotatedAscends(bs, n);
    forall x | x >= lo ensures Accepts(Rotated(bs, n), x) {
      RotateAccepts(bs, n, x);
    }
  }

  // ---------------------------------------------------------------- a logger without two workers

  function LastEpoch(file: seq<Buffer>): nat { if file == [] then 0 else file[|file| - 1].epoch }

  function Max(a: nat, b: nat): nat { if a < b then b else a }

  /** From here on the ring has no gap. */
  function From(g: Logger): nat { Max(LastEpoch(g.file), g.tld + 1) }

  /** The ring is sorted, holds exactly what waits, in order, and has a place for whatever will come. */
  ghost predicate Fits(g: Logger) {
    && g.ring != [] && Ascending(g.ring) && Tagged(g.ring) == g.pending && Dense(g.ring, From(g))
        && AllWithin(g.pending, LastEpoch(g.file))
  }

  /** Other steps leave the ring alone. */
  lemma RingStays(g: Guards, j: State, e: P.Event, l: nat)
    requires P.Enabled(g, j, e) && l < |j.lg| && e != LogWrite(l) && e != LogNotify(l)
    ensures |P.Step(g, j, e).lg| == |j.lg|
    ensures var a, b := j.lg[l], P.Step(g, j, e).lg[l];
            b.ring == a.ring && b.pending == a.pending && b.file == a.file && (e != LogStore(l) ==> b.tld == a.tld)
  {
    hide Silo.Step, Silo.Enabled, Enq, FlattenTo, QueueMin, UpTo, Above, Pushed, Passed, Rotated, DueCount;
  }

  lemma DenseUp(g: Logger, g': Logger)
    requires Fits(g) && g'.ring == g.ring && g'.pending == g.pending && g'.file == g.file && g.tld <= g'.tld
    ensures Fits(g')
  {
  }

  lemma NotifyFits(j: State, l: nat)
    requires PInv(j) && l < |j.lg| && j.lg[l].phase.LNotify? && Fits(j.lg[l])
    ensures Fits(StepNotify(j, l).lg[l])
    ensures Due(j.lg[l].ring, j.lg[l].phase.dl) == Ps(UpTo(j.lg[l].pending, j.lg[l].phase.dl))
  {
    var g, d := j.lg[l], j.lg[l].phase.dl;
    assert PDur(j, l);
    hide PInv, PDur;
    NotifyTagged(g.ring, d);
    RotateDense(g.ring, d, From(g));
    forall i | 0 <= i < |Above(g.pending, d)| ensures Above(g.pending, d)[i].epoch <= LastEpoch(g.file) {
      PL.AboveIn(g.pending, d, i);
    }
  }

  /** The next buffer's epoch has a place in the ring. */
  lemma WriteAccepts(j: State, l: nat)
    requires PInv(j) && l < |j.lg| && j.lg[l].phase.LWriting? && j.lg[l].phase.batch != [] && Fits(j.lg[l])
    requires L.InEpochOrder(j.lg[l].file + [j.lg[l].phase.batch[0]])
    ensures var g, b := j.lg[l], j.lg[l].phase.batch[0];
            From(g) <= b.epoch && Accepts(g.ring, b.epoch) && OneEpoch(b) && LastEpoch(g.file) <= b.epoch
  {
    var g, b := j.lg[l], j.lg[l].phase.batch[0];
    assert PQueue(j, l) && Batch(g)[0] == b && BufOk(j, l, b);
    if g.file != [] {
      assert (g.file + [b])[|g.file| - 1].epoch <= (g.file + [b])[|g.file|].epoch;
    }
  }

  lemma WriteFits(g: Logger, b: Buffer, g': Logger)
    requires Fits(g) && From(g) <= b.epoch && Accepts(g.ring, b.epoch) && OneEpoch(b) && LastEpoch(g.file) <= b.epoch
    requires g'.file == g.file + [b] && g'.pending == g.pending + b.nids && g'.ring == Passed(g.ring, b)
          && g'.tld == g.tld
    ensures Fits(g')
  {
    assert AllOf(b.nids, b.epoch) && AllWithin(g.pending, b.epoch) && LastEpoch(g'.file) == b.epoch;
    if b.nids != [] {
      PutTagged(g.ring, b.nids, b.epoch);
      PutDense(g.ring, Ps(b.nids), b.epoch, From(g));
    } else {
      assert g.pending + [] == g.pending;
    }
  }

  /**
    In every run the ring of a logger without two workers is sorted, holds exactly what waits, in order, and has a
    place for what comes next.
   */
  lemma {:induction false} RingAlways(g: Guards, j0: State, run: seq<P.Event>, l: nat)
    requires Guarded(g, j0) && P.Initial(j0) && P.After(g, j0, run).Some? && l < |j0.lg| && Sole(j0, l)
    ensures var j := P.After(g, j0, run).value; |j.lg| == |j0.lg| && Fits(j.lg[l])
  {
    if run == [] {
      RingStarts(j0, l);
    } else {
      var rest, e := run[..|run| - 1], run[|run| - 1];
      RingAlways(g, j0, rest, l);
      PAlways(g, j0, rest);
      PAlways(g, j0, run);
      L.FilesAreFull(g, j0, run);
      hide Fits, PInv, L.FilesFull, P.Initial;
      RingStep(g, P.After(g, j0, rest).value, e, l);
    }
  }

  lemma RingStarts(j: State, l: nat)
    requires P.Initial(j) && l < |j.lg|
    ensures Fits(j.lg[l])
  {
    assert Tagged(j.lg[l].ring) == [];
  }

  lemma RingStep(g: Guards, j: State, e: P.Event, l: nat)
    requires PInv(j) && P.Enabled(g, j, e) && l < |j.lg| && Fits(j.lg[l]) && Sole(j, l)
    requires PInv(P.Step(g, j, e)) && L.FilesFull(P.Step(g, j, e)) && P.Step(g, j, e).loggerOf == j.loggerOf
    ensures |P.Step(g, j, e).lg| == |j.lg| && Fits(P.Step(g, j, e).lg[l])
  {
    if e == LogNotify(l) {
      NotifyFits(j, l);
    } else if e == LogWrite(l) {
      WriteStep(g, j, l);
    } else {
      RingStays(g, j, e, l);
      if e == LogStore(l) {
        assert PMin(j, l);
      }
      DenseUp(j.lg[l], P.Step(g, j, e).lg[l]);
    }
  }

  lemma WriteStep(g: Guards, j: State, l: nat)
    requires PInv(j) && P.Enabled(g, j, LogWrite(l)) && Fits(j.lg[l]) && Sole(j, l)
    requires PInv(StepWrite(j, l)) && L.FilesFull(StepWrite(j, l))
    ensures |StepWrite(j, l).lg| == |j.lg| && Fits(StepWrite(j, l).lg[l])
    ensures j.lg[l].phase.batch != [] ==> Accepts(j.lg[l].ring, j.lg[l].phase.batch[0].epoch)
  {
    if j.lg[l].phase.batch != [] {
      L.SoleIsOrdered(StepWrite(j, l), l);
      assert StepWrite(j, l).lg[l].file == j.lg[l].file + [j.lg[l].phase.batch[0]];
      WriteAccepts(j, l);
      hide PInv, L.FilesFull, Fits;
      WriteFits(j.lg[l], j.lg[l].phase.batch[0], StepWrite(j, l).lg[l]);
    } else {
      hide PInv, L.FilesFull;
      DenseUp(j.lg[l], StepWrite(j, l).lg[l]);
    }
  }

  /**
    For a logger without two workers: whatever buffer it passes on, store finds the bucket it asserts; and notify
    delivers exactly what waits for the epochs it is told are durable.
   */
  lemma RingServes(g: Guards, j0: State, run: seq<P.Event>, l: nat)
    requires Guarded(g, j0) && P.Initial(j0) && P.After(g, j0, run).Some? && l < |j0.lg| && Sole(j0, l)
    ensures var j := P.After(g, j0, run).value;
            && |j.lg| == |j0.lg|
            && (P.Enabled(g, j, LogWrite(l)) && j.lg[l].phase.batch != [] ==>
                Accepts(j.lg[l].ring, j.lg[l].phase.batch[0].epoch))
            && (j.lg[l].phase.LNotify? ==>
                Due(j.lg[l].ring, j.lg[l].phase.dl) == Ps(UpTo(j.lg[l].pending, j.lg[l].phase.dl)))
  {
    RingAlways(g, j0, run, l);
    PAlways(g, j0, run);
    L.FilesAreFull(g, j0, run);
    hide P.Initial, P.After;
    RingNow(g, P.After(g, j0, run).value, l);
  }

  lemma RingNow(g: Guards, j: State, l: nat)
    requires PInv(j) && L.FilesFull(j) && l < |j.lg| && Sole(j, l) && Fits(j.lg[l])
    ensures P.Enabled(g, j, LogWrite(l)) && j.lg[l].phase.batch != [] ==>
          Accepts(j.lg[l].ring, j.lg[l].phase.batch[0].epoch)
    ensures j.lg[l].phase.LNotify? ==>
          Due(j.lg[l].ring, j.lg[l].phase.dl) == Ps(UpTo(j.lg[l].pending, j.lg[l].phase.dl))
  {
    if j.lg[l].phase.LNotify? {
      NotifyFits(j, l);
    }
    if P.Enabled(g, j, LogWrite(l)) && j.lg[l].phase.batch != [] {
      PL.WriteKeeps(j, l);
      assert PQueue(j, l);
      L.WriteKeepsFull(j, l);
      hide PInv, L.FilesFull, Fits;
      WriteStep(g, j, l);
    }
  }
}
