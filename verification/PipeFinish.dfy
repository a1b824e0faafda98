/**
  The pipeline never blocks a transaction. From every reachable state each worker comes to rest: wal waits
  at most for a buffer, and its logger can always give one back
  (server/enclave/silo_cc/silo_log_buffer.cpp push and is_ready, silo_logger.cpp).
 */
module PipeFinish {
  import opened Base
  import opened Tid
  import opened Silo
  import SI = SiloInv
  import SiloEpoch
  import P = Pipeline
  import opened Pipeline
  import opened PipeInv
  import opened PipeTheorems
  import opened PipeRuns
  import opened RaiseCtidw
  import F = SiloFinish
  import PipeLogger
  import SharedLogger
  import opened PipeProgress

  type State = PipeInv.State

  // ---------------------------------------------------------------- room for the TIDs to come

  predicate Far(v: Ver, n: nat) { v.tid + n < TID_LIMIT }
  predicate FarMaxima(k: Worker, n: nat) { Far(k.maxr, n) && Far(k.maxw, n) && Far(k.mrc, n) }

  /** No version in sight is among the last `n` of its epoch. */
  ghost predicate RoomFor(s: Silo.State, n: nat) {
    && (forall w :: 0 <= w < |s.workers| ==> FarMaxima(s.workers[w], n))
    && forall r :: r in s.recs ==> Far(s.recs[r].ver, n)
  }

  lemma RecordTakes(s: Silo.State, e: Silo.Event, n: nat, r: Rid)
    requires Silo.Enabled(s, e) && RoomFor(s, n) && r in Silo.Step(s, e).recs
    ensures Far(Silo.Step(s, e).recs[r].ver, n) || Silo.Step(s, e).recs[r].ver == ZERO
  {
    assert Far(s.workers[e.w].mrc, n);
  }

  lemma CommitTakes(s: Silo.State, w: nat, n: nat)
    requires Silo.Enabled(s, Commit(w)) && FarMaxima(s.workers[w], n + 1)
    ensures w < |Silo.StepCommit(s, w).workers| && FarMaxima(Silo.StepCommit(s, w).workers[w], n)
  {
  }

  lemma WorkerTakes(s: Silo.State, e: Silo.Event, n: nat)
    requires Silo.Enabled(s, e) && RoomFor(s, n) && !e.Commit?
    ensures e.w < |Silo.Step(s, e).workers| && FarMaxima(Silo.Step(s, e).workers[e.w], n)
  {
    assert FarMaxima(s.workers[e.w], n);
  }

  /** Only the choice of a TID takes room, and one is enough. */
  lemma StepTakes(s: Silo.State, e: Silo.Event, n: nat)
    requires Silo.Enabled(s, e) && RoomFor(s, n + 1)
    ensures RoomFor(Silo.Step(s, e), if e.Commit? then n else n + 1)
  {
    var s' := Silo.Step(s, e);
    if e.Commit? { CommitTakes(s, e.w, n); } else { WorkerTakes(s, e, n + 1); }
    SiloEpoch.OthersKept(s, e);
    forall w | 0 <= w < |s'.workers| ensures FarMaxima(s'.workers[w], if e.Commit? then n else n + 1) {
      assert w != e.w ==> FarMaxima(s.workers[w], n + 1);
    }
    forall r | r in s'.recs ensures Far(s'.recs[r].ver, if e.Commit? then n else n + 1) {
      RecordTakes(s, e, n + 1, r);
    }
    hide Silo.Step, Silo.Enabled;
  }

  /** The next step of worker `w` towards rest, which takes room only at the end of its validation. */
  lemma NextTakes(s: Silo.State, w: nat, n: nat)
    requires w < |s.workers| && !s.workers[w].phase.Idle? && Silo.Enabled(s, F.Next(s, w))
    requires RoomFor(s, if SI.Open(s.workers[w].phase) then n + 1 else n)
    ensures var t := Silo.Step(s, F.Next(s, w));
            w < |t.workers| && RoomFor(t, if SI.Open(t.workers[w].phase) then n + 1 else n)
  {
    var open := SI.Open(s.workers[w].phase);
    NextOpens(s, w);
    if open {
      StepTakes(s, F.Next(s, w), n);
    } else if n > 0 {
      StepTakes(s, F.Next(s, w), n - 1);
    }
    hide Silo.Step, Silo.Enabled, F.Next;
  }

  lemma NextOpens(s: Silo.State, w: nat)
    requires w < |s.workers| && !s.workers[w].phase.Idle? && Silo.Enabled(s, F.Next(s, w))
    ensures F.Next(s, w).w == w < |Silo.Step(s, F.Next(s, w)).workers|
    ensures !SI.Open(s.workers[w].phase) ==>
          !F.Next(s, w).Commit? && !SI.Open(Silo.Step(s, F.Next(s, w)).workers[w].phase)
    ensures F.Next(s, w).Commit? ==> !SI.Open(Silo.Step(s, F.Next(s, w)).workers[w].phase)
    ensures F.Next(s, w).Logged? <==> s.workers[w].phase.Logging?
    ensures !F.Next(s, w).Begin?
  {
  }

  lemma HasRoom(s: Silo.State, w: nat)
    requires w < |s.workers| && RoomFor(s, 1)
    ensures F.NoOverflow(s, w)
  {
    assert FarMaxima(s.workers[w], 1);
  }

  // ---------------------------------------------------------------- wal

  /** The loggers rest, and those that the start-up order concerns can scan at any time. */
  ghost predicate Quiescent(g: Guards, j: State) {
    WellFormed(j) && Resting(j) && (g.started ==> forall w :: 0 <= w < |j.wp| ==> j.wp[w].ctidw != 0)
  }

  /** A worker in wal has stored CTIDW, so its logger finds a minimum. */
  lemma WalMin(g: Guards, j: State, w: nat)
    requires PInv(j) && Quiescent(g, j) && w < |j.wp| && !SI.Resting(j.s.workers[w].phase)
    ensures ScanMin(j, j.loggerOf[w], 0, 0) != 0 && (g.started ==> Sees(j, j.loggerOf[w], 0, false))
  {
    assert PWork(j, w);
    SharedLogger.SomeMin(j, j.loggerOf[w], w, 0, 0);
  }

  /** With nothing in transit, all of a worker's buffers but the current one are in its pool. */
  lemma PoolFull(j: State, w: nat)
    requires PInv(j) && w < |j.wp| && j.wp[w].cur.None?
    requires var lg := j.lg[j.loggerOf[w]]; lg.phase.LIdle? && lg.queue == map[]
    ensures j.wp[w].pool != []
  {
    assert PIds(j, w);
    PipeLogger.FlattenEmpty(j.s.ge + 1);
    assert AllIds()[0] > 0 by { assert 0 in [0] + FirstPool(); }
    assert 0 in multiset(j.wp[w].pool);
  }

  /** Everything but the pipeline of worker `w` and the loggers is as it was. */
  ghost predicate OnlyPipe(m: State, t: State, w: nat) {
    && t.s == m.s && |t.wp| == |m.wp| && |t.lg| == |m.lg|
    && forall u :: 0 <= u < |m.wp| ==> t.wp[u].ctidw == m.wp[u].ctidw && (u != w ==> t.wp[u].pushed == m.wp[u].pushed)
  }

  /** Its logger gives a worker in wal a buffer back. */
  lemma Returns(g: Guards, j: State, m: State, w: nat) returns (t: State)
    requires Guarded(g, j) && PInv(j) && Reach(g, None, j, m) && Quiescent(g, m) && w < |m.wp|
    requires m.s.workers[w].phase.Logging? && m.wp[w].cur.None?
    ensures Reach(g, None, j, t) && Quiescent(g, t) && OnlyPipe(m, t, w)
    ensures t.wp[w] == m.wp[w].(pool := t.wp[w].pool) && t.wp[w].pool != []
  {
    var l := m.loggerOf[w];
    InvAt(g, j, m);
    WalMin(g, m, w);
    InvTidy(m, l);
    hide Reach, PInv, ScanMin, Tidy, Sees;
    t := EmptiesQueue(g, j, m, l);
    InvAt(g, j, t);
    PoolFull(t, w);
  }

  /** A worker in wal without a current buffer gets one. */
  lemma GetsBuffer(g: Guards, j: State, m: State, w: nat) returns (t: State)
    requires Guarded(g, j) && PInv(j) && Reach(g, None, j, m) && Quiescent(g, m) && w < |m.wp|
    requires m.s.workers[w].phase.Logging? && m.wp[w].cur.None?
    ensures Reach(g, None, j, t) && Quiescent(g, t) && OnlyPipe(m, t, w)
    ensures t.wp[w].pushed == m.wp[w].pushed && t.wp[w].cur.Some? && t.wp[w].cur.value.recs == []
  {
    hide Reach, PInv;
    t := m;
    if m.wp[w].pool == [] {
      t := Returns(g, j, m, w);
    }
    t := Take(g, None, j, t, Ready(w));
  }

  /** wal pushes: at once, after publishing a buffer that is full or old, or after waiting for one. */
  lemma PushesOut(g: Guards, j: State, m: State, w: nat) returns (t: State)
    requires Guarded(g, j) && PInv(j) && Reach(g, None, j, m) && Quiescent(g, m) && w < |m.wp|
          && m.s.workers[w].phase.Logging?
    ensures Reach(g, None, j, t) && Quiescent(g, t) && OnlyPipe(m, t, w) && t.wp[w].pushed
  {
    hide Reach, PInv, Enq, Pushed;
    t := m;
    if !t.wp[w].pushed {
      if t.wp[w].cur.Some? && !EnPush(t, w) {
        t := Take(g, None, j, t, Publish(w));
      }
      if t.wp[w].cur.None? {
        t := GetsBuffer(g, j, t, w);
      }
      t := Take(g, None, j, t, Push(w));
    }
  }

  // ---------------------------------------------------------------- all the workers

  /** Worker `w` has moved, and the loggers; nobody else is any further from rest. */
  ghost predicate OthersRest(m: State, t: State, w: nat) {
    && |t.wp| == |m.wp| && |t.s.workers| == |m.s.workers|
    && forall u :: 0 <= u < |m.s.workers| && u != w ==> t.s.workers[u] == m.s.workers[u]
  }

  /** What the protocol step of worker `w` towards rest does. */
  lemma NextDoes(j: State, w: nat, n: nat)
    requires PInv(j) && w < |j.wp| && !j.s.workers[w].phase.Idle?
    requires RoomFor(j.s, if SI.Open(j.s.workers[w].phase) then n + 1 else n)
    ensures var e := F.Next(j.s, w);
            && Silo.Enabled(j.s, e) && e.w == w && !e.Begin? && (e.Logged? <==> j.s.workers[w].phase.Logging?)
            && var t := Silo.Step(j.s, e);
               && w < |t.workers| == |j.s.workers| && F.Rank(t, w) < F.Rank(j.s, w)
               && RoomFor(t, if SI.Open(t.workers[w].phase) then n + 1 else n)
               && forall u :: 0 <= u < |j.s.workers| && u != w ==> t.workers[u] == j.s.workers[u]
  {
    if SI.Open(j.s.workers[w].phase) { LessRoom(j.s, n + 1); HasRoom(j.s, w); }
    F.NextEnabled(j.s, w);
    NextTakes(j.s, w, n);
    NextOpens(j.s, w);
    F.NextNearer(j.s, w);
    SiloEpoch.OthersKept(j.s, F.Next(j.s, w));
    hide PInv, RoomFor, F.Rank, SI.Inv, SiloEpoch.EpochInv, Silo.Step, Silo.Enabled;
  }

  /** One step of worker `w` towards rest; in wal it pushes first. */
  lemma StepsOn(g: Guards, j: State, m: State, w: nat, n: nat) returns (t: State)
    requires Guarded(g, j) && PInv(j) && Reach(g, None, j, m) && Quiescent(g, m) && w < |m.wp|
    requires !m.s.workers[w].phase.Idle? && RoomFor(m.s, if SI.Open(m.s.workers[w].phase) then n + 1 else n)
    ensures Reach(g, None, j, t) && Quiescent(g, t) && OthersRest(m, t, w) && w < |t.wp|
    ensures RoomFor(t.s, if SI.Open(t.s.workers[w].phase) then n + 1 else n) && F.Rank(t.s, w) < F.Rank(m.s, w)
  {
    InvAt(g, j, m);
    NextDoes(m, w, n);
    hide Reach, PInv, RoomFor, F.Rank, Silo.Step, Silo.Enabled, SI.Open;
    if m.s.workers[w].phase.Logging? {
      var s := PushesOut(g, j, m, w);
      t := Take(g, None, j, s, WalDone(w));
      assert F.Next(m.s, w) == Logged(w);
      WalStores(m, w);
    } else {
      t := Take(g, None, j, m, Work(F.Next(m.s, w)));
    }
  }

  lemma LessRoom(s: Silo.State, n: nat)
    requires RoomFor(s, n) && n >= 1
    ensures RoomFor(s, 1) && RoomFor(s, n - 1)
  {
    forall w | 0 <= w < |s.workers| ensures FarMaxima(s.workers[w], 1) && FarMaxima(s.workers[w], n - 1) {
      assert FarMaxima(s.workers[w], n);
    }
  }

  lemma WalStores(m: State, w: nat)
    requires PInv(m) && w < |m.wp| && m.s.workers[w].phase.Logging?
    ensures m.s.workers[w].mrc.epoch != 0
  {
    assert SI.WInv(m.s, w);
    assert SI.OInv(m.s, m.s.workers[w].pos);
  }

  lemma {:induction false} Rests1(g: Guards, j: State, m: State, w: nat, n: nat) returns (t: State)
    requires Guarded(g, j) && PInv(j) && Reach(g, None, j, m) && Quiescent(g, m) && w < |m.wp|
    requires RoomFor(m.s, if SI.Open(m.s.workers[w].phase) then n + 1 else n)
    ensures Reach(g, None, j, t) && Quiescent(g, t) && OthersRest(m, t, w) && w < |t.wp|
    ensures t.s.workers[w].phase.Idle? && RoomFor(t.s, n)
    decreases F.Rank(m.s, w)
  {
    hide Reach, PInv, RoomFor, F.Rank, Quiescent;
    QuiescentForm(g, m);
    t := m;
    if !m.s.workers[w].phase.Idle? {
      var s := StepsOn(g, j, m, w, n);
      t := Rests1(g, j, s, w, n);
    }
  }

  lemma QuiescentForm(g: Guards, j: State)
    requires Quiescent(g, j)
    ensures WellFormed(j)
  {
  }

  /** The first `n` workers come to rest. */
  lemma {:induction false} RestWorkers(g: Guards, j: State, m: State, n: nat) returns (t: State)
    requires Guarded(g, j) && PInv(j) && Reach(g, None, j, m) && Quiescent(g, m) && n <= |m.s.workers|
    requires RoomFor(m.s, |m.s.workers|)
    ensures Reach(g, None, j, t) && Quiescent(g, t) && |t.s.workers| == |m.s.workers|
    ensures RoomFor(t.s, |m.s.workers| - n)
    ensures forall w :: 0 <= w < n ==> t.s.workers[w].phase.Idle?
  {
    hide Reach, PInv, RoomFor, Quiescent;
    t := m;
    if n > 0 {
      var s := RestWorkers(g, j, m, n - 1);
      QuiescentForm(g, s);
      LessRoom(s.s, |m.s.workers| - (n - 1));
      t := Rests1(g, j, s, n - 1, |m.s.workers| - n);
    }
  }

  /** The start-up is over, and there is room for one TID more per worker. */
  ghost predicate Going(g: Guards, j: State) {
    && WellFormed(j) && Unblocked(g, j) && (g.started ==> forall w :: 0 <= w < |j.wp| ==> j.wp[w].ctidw != 0)
    && RoomFor(j.s, |j.s.workers|)
  }

  lemma AllRest(g: Guards, j: State) returns (t: State)
    requires Guarded(g, j) && PInv(j) && Going(g, j)
    ensures Reach(g, None, j, t) && AllIdle(t) && Unblocked(g, t)
  {
    hide Reach, PInv, RoomFor;
    Here(g, None, j);
    var s := RestAll(g, j, j, |j.lg|);
    t := RestWorkers(g, j, s, |s.s.workers|);
  }

  lemma Regroups(g: Guards, j: State, a: seq<P.Event>, b: seq<P.Event>, c: seq<P.Event>)
    ensures P.After(g, j, a + (b + c)) == P.After(g, j, (a + b) + c)
  {
    assert a + (b + c) == (a + b) + c;
  }

  /**
    From every reachable state the run can go on until no worker is in a transaction, every transaction
    there is by then is covered by the epoch that recovery reads, and every client with a committed write
    has been told. What it takes: every logger serves a worker, and no version in sight is among the last
    of its epoch.
   */
  lemma NothingIsLeft(g: Guards, j0: State, run: seq<P.Event>) returns (more: seq<P.Event>)
    requires Guarded(g, j0) && P.Initial(j0) && P.After(g, j0, run).Some? && Served(j0)
    requires Going(g, P.After(g, j0, run).value)
    ensures P.After(g, j0, run + more).Some?
    ensures var j, t := P.After(g, j0, run).value, P.After(g, j0, run + more).value;
            && AllIdle(t) && |j.s.order| <= |t.s.order| && j.s.ge <= t.pepoch
            && PrefixLen(t.s.order, t.pepoch) == |t.s.order| && AllTold(t)
  {
    PAlways(g, j0, run);
    var j := P.After(g, j0, run).value;
    hide P.After, P.Step, P.Enabled, P.Initial, PInv, Reach, RoomFor, Going, AllTold, PrefixLen, Unblocked, Served,
          Guarded, AllIdle;
    var m := AllRest(g, j);
    var a := RunTo(g, j, m);
    AfterJoin(g, j0, run, a);
    DurablePrefixIsFinal(g, j0, run, a, 0);
    var b := EverythingIsTold(g, j0, run + a);
    more := a + b;
    Regroups(g, j0, run, a, b);
  }
}
