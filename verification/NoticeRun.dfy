/**
  A client told too much: two workers on their own loggers, under both guards.  The second logger's
  compare-exchange of DurableEpoch, with an older minimum, comes between the first one's load and its
  compare-exchange; the first logger notifies its client all the same, of a transaction that recovery does
  not find.
 */
module NoticeRun {
  import opened Base
  import opened Silo
  import P = Pipeline
  import opened Pipeline
  import opened PipeInv
  import opened PipeTheorems
  import opened PipeRuns
  import G = PipeGuards
  import N = Notices
  import R = Recovery

  type State = PipeInv.State

  const BOTH_GUARDS: Guards := Guards(true, true)

  /** The transaction of worker 0: of epoch `e`, inserting a record `r` that was not there at the start. */
  ghost predicate Noted(j: State, e: nat, r: Rid) {
    && |j.s.order| == 1 && j.s.order[0].epoch == e && j.s.order[0].status.Committed? && Writes(j.s.order[0].wset, r)
        && r !in j.s.init
    && |j.lg| == 2 && j.lg[0].pending == [Nid(0, e)] && j.lg[1].pending == []
  }

  /**
    Both workers in GlobalEpoch `n`, nothing left to publish or to write, and `lg0` and `lg1` what is left of
    the loggers.
   */
  ghost predicate Bench(j: State, n: nat, e: nat, r: Rid, c0: nat, c1: nat, dur: nat) {
    && WellFormed(j) && |j.wp| == |j.lg| == 2 && j.loggerOf == [0, 1] && AllIdle(j) && j.s.ge == n && j.dur == dur
        && j.notified == []
    && (forall w :: 0 <= w < 2 ==> j.s.workers[w].local == n && CurRecs(j.wp[w]) == [] && j.lg[w].queue == map[])
    && j.wp[0].ctidw == c0 && j.wp[1].ctidw == c1 && Noted(j, e, r)
  }

  ghost predicate Loggers(j: State, phs: seq<LPhase>, tlds: seq<nat>) {
    |j.lg| == |phs| == |tlds| == 2 && forall l :: 0 <= l < 2 ==> j.lg[l].phase == phs[l] && j.lg[l].tld == tlds[l]
  }

  /** Worker 0's transaction is in its buffer. */
  ghost predicate Held(j: State, n: nat, r: Rid) {
    && WellFormed(j) && |j.wp| == |j.lg| == 2 && j.loggerOf == [0, 1] && AllIdle(j) && j.s.ge == n && j.dur == 0
        && j.notified == [] && n >= 2
    && (forall w :: 0 <= w < 2 ==> j.s.workers[w].local == n && j.wp[w].ctidw == n && j.lg[w] == FirstLogger())
    && CurRecs(j.wp[1]) == [] && j.wp[0].cur.Some? && j.wp[0].cur.value.recs != []
        && j.wp[0].cur.value.nids == [Nid(0, n)]
    && j.wp[0].cur.value.epoch == n && j.wp[0].cur.value.w == 0
    && |j.s.order| == 1 && j.s.order[0].epoch == n && j.s.order[0].status.Committed? && Writes(j.s.order[0].wset, r)
        && r !in j.s.init
  }

  lemma Holds2(j0: State) returns (t: State, r: Rid)
    requires P.Initial(j0) && |j0.wp| == |j0.lg| == 2 && j0.loggerOf == [0, 1]
    ensures Reach(BOTH_GUARDS, None, j0, t) && Held(t, t.s.ge, r)
  {
    hide Reach, Leads;
    var g := BOTH_GUARDS;
    t := G.Awakes(g, j0);
    Ticks(g, t);
    Join(g, None, j0, t, Ticked(t));
    t := Ticked(t);
    Raises(g, t, 2);
    Join(g, None, j0, t, RaisedTo(t, 2));
    t := RaisedTo(t, 2);
    r := G.FreshRid(t.s.recs.Keys + t.s.init.Keys);
    assert CanInsert(t, 0, r);
    Inserts(g, t, 0, r, "v");
    Join(g, None, j0, t, Inserted(t, 0, r, "v"));
    t := Inserted(t, 0, r, "v");
    assert t.s.order[0].wset[0].r == r;
  }

  /** It is published in the next epoch. */
  lemma Publishes(j0: State, m: State, r: Rid) returns (t: State)
    requires Reach(BOTH_GUARDS, None, j0, m) && Held(m, m.s.ge, r)
    ensures Reach(BOTH_GUARDS, None, j0, t)
    ensures t == StepRaise(StepPublish(Ticked(m), 0), 1)
  {
    hide Reach, Leads;
    var g := BOTH_GUARDS;
    Ticks(g, m);
    Join(g, None, j0, m, Ticked(m));
    t := Take(g, None, j0, Ticked(m), Publish(0));
    t := Take(g, None, j0, t, Raise(1));
  }

  lemma {:induction false} OnlyBuffer(b: Buffer, e: nat, n: nat)
    ensures FlattenTo(map[e := [b]], n) == if e < n then [b] else []
    ensures QueueMin(map[e := [b]], n) == if e < n then e else n
  {
    if n > 0 { OnlyBuffer(b, e, n - 1); }
  }

  /** The first logger writes it. */
  lemma WritesFirst(j0: State, m: State, e: nat, r: Rid) returns (t: State)
    requires Reach(BOTH_GUARDS, None, j0, m) && Held(m, e, r)
    ensures Reach(BOTH_GUARDS, None, j0, t)
    ensures Bench(t, e + 1, e, r, e, e + 1, 0) && Loggers(t, [LSend(e), LIdle], [0, 0]) && e >= 2
  {
    hide Reach, FlattenTo, QueueMin, ScanMin;
    t := Publishes(j0, m, r);
    var s, b := t, m.wp[0].cur.value;
    assert s.lg[0].queue == map[e := [b]] by { assert [] + [b] == [b]; }
    assert e in s.lg[0].queue;
    OnlyBuffer(b, e, e + 2);
    OnlyBuffer(b, e, e);
    assert Only(s, 0, 0, e);
    OnlyMin(s, 0, 0, e, 0, 0);
    t := ToSend(BOTH_GUARDS, None, j0, 0, s, true);
    assert t.lg[0].pending == [Nid(0, e)] by { assert NidsOf([b]) == b.nids + NidsOf([]); }
  }

  /** It stores a durable epoch. */
  lemma StoresFirst(j0: State, m: State, e: nat, r: Rid) returns (t: State)
    requires Reach(BOTH_GUARDS, None, j0, m) && e >= 2
    requires Bench(m, e + 1, e, r, e, e + 1, 0) && Loggers(m, [LSend(e), LIdle], [0, 0])
    ensures Reach(BOTH_GUARDS, None, j0, t) && Bench(t, e + 1, e, r, e, e + 1, 0)
          && Loggers(t, [LIdle, LIdle], [e - 1, 0])
  {
    hide Reach, Settled;
    t := FromSend(BOTH_GUARDS, None, j0, 0, m);
    NothingTold(InPhase(m, 0, LCas(0, Least(m.lg, 1, 0), e)), 0);
  }

  /** A round that cannot raise DurableEpoch tells nothing that is newer. */
  lemma NothingTold(j: State, l: nat)
    requires WellFormed(j) && l < |j.lg| && j.lg[l].phase.LCas? && j.lg[l].phase.dl <= j.dur
    requires forall i :: 0 <= i < |j.lg[l].pending| ==> j.lg[l].pending[i].epoch > j.lg[l].phase.dl
    ensures var min := j.lg[l].phase.min;
            Settled(j, l) == PutL(j, l, j.lg[l].(phase := LIdle, tld := if min > 0 then min - 1 else 0,
                                                     ring := Settled(j, l).lg[l].ring))
  {
    AllAbove(j.lg[l].pending, j.lg[l].phase.dl);
    assert j.notified + [] == j.notified;
  }

  lemma {:induction false} AllAbove(ids: seq<Nid>, d: nat)
    requires forall i :: 0 <= i < |ids| ==> ids[i].epoch > d
    ensures UpTo(ids, d) == [] && Above(ids, d) == ids
  {
    if ids != [] { AllAbove(ids[1..], d); }
  }

  function Min(a: nat, b: nat): nat { if a < b then a else b }

  /** Logger `l`, idle, goes up to its compare-exchange. */
  lemma Stops(j0: State, m: State, l: nat, n: nat, e: nat, r: Rid, c0: nat, c1: nat, phs: seq<LPhase>, tlds: seq<nat>,
              c: nat) returns (t: State)
    requires Reach(BOTH_GUARDS, None, j0, m) && Bench(m, n, e, r, c0, c1, 0) && Loggers(m, phs, tlds) && l < 2
    requires c == [c0, c1][l] && phs[l].LIdle? && tlds[l] + 1 < c
    ensures Reach(BOTH_GUARDS, None, j0, t) && Bench(t, n, e, r, c0, c1, 0)
    ensures Loggers(t, phs[l := LCas(0, Min(tlds[0], tlds[1]), c)], tlds)
  {
    hide Reach, QueueMin;
    assert Only(m, l, l, c);
    OnlyMin(m, l, l, c, 0, 0);
    EmptyMin(c);
    t := ToSend(BOTH_GUARDS, None, j0, l, m, false);
    assert Least(t.lg, 1, t.lg[0].tld) == Min(tlds[0], tlds[1]);
    t := ToCas(BOTH_GUARDS, None, j0, l, t);
  }

  /** From there to the end of its round, if that cannot raise DurableEpoch. */
  lemma Finishes(j0: State, m: State, l: nat, n: nat, e: nat, r: Rid, c0: nat, c1: nat, phs: seq<LPhase>,
                 tlds: seq<nat>) returns (t: State)
    requires Reach(BOTH_GUARDS, None, j0, m) && Bench(m, n, e, r, c0, c1, 0) && Loggers(m, phs, tlds) && l < 2
    requires phs[l].LCas? && phs[l].dl == 0 < phs[l].min && 0 < e
    ensures Reach(BOTH_GUARDS, None, j0, t) && Bench(t, n, e, r, c0, c1, 0)
    ensures Loggers(t, phs[l := LIdle], tlds[l := phs[l].min - 1])
  {
    hide Reach, Settled;
    NothingTold(m, l);
    t := Settles(BOTH_GUARDS, None, j0, l, m);
  }

  /** The workers go on to the next epoch. */
  lemma GoesOn(j0: State, m: State, n: nat, e: nat, r: Rid, c0: nat, c1: nat, phs: seq<LPhase>,
               tlds: seq<nat>) returns (t: State)
    requires Reach(BOTH_GUARDS, None, j0, m) && Bench(m, n, e, r, c0, c1, 0) && Loggers(m, phs, tlds)
    ensures Reach(BOTH_GUARDS, None, j0, t) && Bench(t, n + 1, e, r, n + 1, n + 1, 0) && Loggers(t, phs, tlds)
  {
    hide Reach, Leads;
    Ticks(BOTH_GUARDS, m);
    Join(BOTH_GUARDS, None, j0, m, Ticked(m));
    t := Ticked(m);
    Raises(BOTH_GUARDS, t, 2);
    Join(BOTH_GUARDS, None, j0, t, RaisedTo(t, 2));
    t := RaisedTo(t, 2);
  }

  /** Both loggers are about to compare and exchange, the second with the smaller minimum. */
  lemma Races(j0: State) returns (t: State, e: nat, r: Rid)
    requires P.Initial(j0) && |j0.wp| == |j0.lg| == 2 && j0.loggerOf == [0, 1]
    ensures Reach(BOTH_GUARDS, None, j0, t) && Bench(t, e + 2, e, r, e + 2, e + 2, 0) && e >= 2
    ensures Loggers(t, [LCas(0, e, e + 2), LCas(0, e - 1, e + 2)], [e, e])
  {
    hide Reach, Bench, Loggers;
    t, r := Holds2(j0);
    e := t.s.ge;
    t := WritesFirst(j0, t, e, r);
    t := StoresFirst(j0, t, e, r);
    t := CatchesUp(j0, t, e, r);
    var phs: seq<LPhase>, tlds: seq<nat> := [LIdle, LIdle], [e - 1, 0];
    t := Stops(j0, t, 0, e + 1, e, r, e + 1, e + 1, phs, tlds, e + 1);
    phs := phs[0 := LCas(0, 0, e + 1)];
    t := Stops(j0, t, 1, e + 1, e, r, e + 1, e + 1, phs, tlds, e + 1);
    phs := phs[1 := LCas(0, 0, e + 1)];
    t := Finishes(j0, t, 1, e + 1, e, r, e + 1, e + 1, phs, tlds);
    phs, tlds := phs[1 := LIdle], tlds[1 := e];
    t := GoesOn(j0, t, e + 1, e, r, e + 1, e + 1, phs, tlds);
    t := Stops(j0, t, 1, e + 2, e, r, e + 2, e + 2, phs, tlds, e + 2);
    phs := phs[1 := LCas(0, e - 1, e + 2)];
    t := Finishes(j0, t, 0, e + 2, e, r, e + 2, e + 2, phs, tlds);
    phs, tlds := phs[0 := LIdle], tlds[0 := e];
    t := Stops(j0, t, 0, e + 2, e, r, e + 2, e + 2, phs, tlds, e + 2);
    phs := phs[0 := LCas(0, e, e + 2)];
    assert phs == [LCas(0, e, e + 2), LCas(0, e - 1, e + 2)] && tlds == [e, e];
  }

  /** Worker 0 stores its CTIDW too. */
  lemma CatchesUp(j0: State, m: State, e: nat, r: Rid) returns (t: State)
    requires Reach(BOTH_GUARDS, None, j0, m) && e >= 2
    requires Bench(m, e + 1, e, r, e, e + 1, 0) && Loggers(m, [LIdle, LIdle], [e - 1, 0])
    ensures Reach(BOTH_GUARDS, None, j0, t) && Bench(t, e + 1, e, r, e + 1, e + 1, 0)
          && Loggers(t, [LIdle, LIdle], [e - 1, 0])
  {
    hide Reach;
    t := Take(BOTH_GUARDS, None, j0, m, Raise(0));
  }

  /**
    A client has been told of a transaction that inserts `r`, which was not there at the start, and which no
    recovery finds.
   */
  ghost predicate ToldTooMuch(j: State, r: Rid) {
    && |j.notified| == 1 && j.notified[0].p < |j.s.order| && j.notified[0].epoch > j.dur
    && Writes(j.s.order[j.notified[0].p].wset, r) && r !in j.s.init
    && !N.Recovered(j, j.notified[0].p, j.dur)
    && forall d: nat, batches :: d <= j.dur && R.Batches(j.lg, d, batches) ==>
        R.R.Run(Some(j.s.init), R.Flatten(batches)) == Some(j.s.init)
  }

  /**
    With two workers, each with its own logger, and under both guards, some run tells a client of a transaction of an
    epoch beyond DurableEpoch, and the replay of the files lacks it.
   */
  lemma TellsTooMuch(j0: State) returns (t: State, r: Rid)
    requires P.Initial(j0) && |j0.wp| == |j0.lg| == 2 && j0.loggerOf == [0, 1]
    ensures Reach(BOTH_GUARDS, None, j0, t) && ToldTooMuch(t, r)
  {
    var m, e;
    m, e, r := Races(j0);
    t := Ended(j0, m, e, r);
    forall d: nat, batches | d <= t.dur && R.Batches(t.lg, d, batches)
      ensures R.R.Run(Some(t.s.init), R.Flatten(batches)) == Some(t.s.init)
    {
      NotReplayed(j0, t, e, d, batches);
    }
  }

  /** Replaying up to an epoch before `e` changes nothing. */
  lemma NotReplayed(j0: State, t: State, e: nat, d: nat, batches: seq<seq<LogRec>>)
    requires P.Initial(j0) && Reach(BOTH_GUARDS, None, j0, t) && |t.s.order| == 1 && t.s.order[0].epoch == e
    requires d <= t.dur < e && R.Batches(t.lg, d, batches)
    ensures R.R.Run(Some(t.s.init), R.Flatten(batches)) == Some(t.s.init)
  {
    hide R.R.Run, R.Flatten, R.Batches, P.Initial;
    var run :| Leads(BOTH_GUARDS, None, j0, run, t);
    R.CrashRecovery(BOTH_GUARDS, j0, run, d, batches);
    assert PrefixLen(t.s.order, d) == 0;
  }

  /** The second logger stores its minimum, and the first one tells its client. */
  lemma Ended(j0: State, m: State, e: nat, r: Rid) returns (t: State)
    requires Reach(BOTH_GUARDS, None, j0, m) && Bench(m, e + 2, e, r, e + 2, e + 2, 0) && e >= 2
    requires Loggers(m, [LCas(0, e, e + 2), LCas(0, e - 1, e + 2)], [e, e])
    ensures Reach(BOTH_GUARDS, None, j0, t) && t.s == m.s && t.dur == e - 1 && t.notified == [Nid(0, e)]
    ensures Noted(m, e, r)
  {
    hide Reach;
    t := Settles(BOTH_GUARDS, None, j0, 1, m);
    assert t.dur == e - 1 && t.notified == [] by { assert UpTo([], e - 1) == [] && [] + UpTo([], e - 1) == []; }
    t := Settles(BOTH_GUARDS, None, j0, 0, t);
    assert UpTo([Nid(0, e)], e) == [Nid(0, e)] + UpTo([], e);
  }
}
