/**
  What a client is told against what recovery will find
  (server/enclave/silo_cc/silo_notifier.cpp, check_durable and make_durable).

  check_durable returns its minimum whether or not it stored it, so the epoch up to which a logger
  notifies may be ahead of DurableEpoch, and DurableEpoch of the file recovery reads.
 */
module Notices {
  import opened Base
  import opened Silo
  import P = Pipeline
  import opened Pipeline
  import opened PipeInv
  import opened SiloInv
  import PL = PipeLogger
  import opened PipeTheorems

  type State = PipeInv.State

  // ---------------------------------------------------------------- steps that lose something

  /** A compare-exchange loses to a logger that stored a smaller minimum. */
  predicate Loses(j: State, e: P.Event) {
    && e.LogCas? && e.l < |j.lg| && j.lg[e.l].phase.LCas?
    && var ph := j.lg[e.l].phase; ph.seen < ph.dl && j.dur != ph.seen && j.dur < ph.dl
  }

  /** A write of the epoch file comes after that of a larger epoch. */
  predicate Lowers(j: State, e: P.Event) {
    e.LogPersist? && e.l < |j.lg| && j.lg[e.l].phase.LPersist? && j.lg[e.l].phase.dl < j.pepoch
  }

  /** No step of the run is such a loss. */
  ghost predicate Lossless(g: Guards, j0: State, run: seq<P.Event>)
    requires P.After(g, j0, run).Some?
  {
    run == [] || (Lossless(g, j0, run[..|run| - 1]) && !Loses(P.After(g, j0, run[..|run| - 1]).value, run[|run| - 1]))
  }

  ghost predicate Rising(g: Guards, j0: State, run: seq<P.Event>)
    requires P.After(g, j0, run).Some?
  {
    run == [] || (Rising(g, j0, run[..|run| - 1]) && !Lowers(P.After(g, j0, run[..|run| - 1]).value, run[|run| - 1]))
  }

  /** The compare-exchange of logger `l`'s round under way was such a loss. */
  ghost predicate Beaten(g: Guards, j0: State, run: seq<P.Event>, l: nat)
    requires P.After(g, j0, run).Some?
  {
    run != []
    && var rest, e := run[..|run| - 1], run[|run| - 1];
       if e.LogCas? && e.l == l then Loses(P.After(g, j0, rest).value, e)
       else !(e.LogStart? && e.l == l) && Beaten(g, j0, rest, l)
  }

  // ---------------------------------------------------------------- DurableEpoch and the loggers' rounds

  /** Where logger `l` is in its round, as far as DurableEpoch goes. */
  ghost predicate Placed(j: State, l: nat, beaten: bool)
    requires l < |j.lg|
  {
    var ph := j.lg[l].phase;
    && (ph.LCas? ==> ph.seen <= j.dur)
    && (ph.LPersist? ==> ph.dl <= j.dur)
    && (ph.LNotify? && !beaten ==> ph.dl <= j.dur)
  }

  /** How DurableEpoch, its file and the phases that handle them can change. */
  lemma DurMoves(g: Guards, j: State, e: P.Event, l: nat)
    requires P.Enabled(g, j, e) && l < |j.lg|
    ensures var j' := P.Step(g, j, e);
            && |j'.lg| == |j.lg|
            && (if e.LogCas? then j' == StepCas(j, e.l) else j'.dur == j.dur)
            && (if e.LogPersist? then j' == StepPersist(j, e.l) else j'.pepoch == j.pepoch)
            && (if e.LogNotify? then j' == StepNotify(j, e.l) else j'.notified == j.notified)
            && (var ph, ph' := j.lg[l].phase, j'.lg[l].phase;
                ph' != ph ==>
                  && (ph'.LCas? ==> e == LogLoadDur(l) && ph'.seen == j.dur)
                  && (ph'.LPersist? ==> e == LogCas(l)) && (ph'.LNotify? ==> e == LogCas(l) || e == LogPersist(l)))
  {
    hide Silo.Step, Silo.Enabled, Enq, FlattenTo, QueueMin, UpTo, Above, Pushed;
  }

  lemma PlacedStays(g: Guards, j: State, e: P.Event, l: nat, beaten: bool)
    requires P.Enabled(g, j, e) && l < |j.lg| && Placed(j, l, beaten) && (e.LogCas? ==> Placed(j, e.l, false))
    ensures var j' := P.Step(g, j, e);
            && |j'.lg| == |j.lg| && j.dur <= j'.dur
            && Placed(j', l, if e.LogCas? && e.l == l then Loses(j, e) else !(e.LogStart? && e.l == l) && beaten)
  {
    DurMoves(g, j, e, l);
  }

  lemma {:induction false} PlacedAlways(g: Guards, j0: State, run: seq<P.Event>, l: nat)
    requires P.Initial(j0) && P.After(g, j0, run).Some? && l < |j0.lg|
    ensures var j := P.After(g, j0, run).value; |j.lg| == |j0.lg| && Placed(j, l, Beaten(g, j0, run, l))
  {
    if run != [] {
      var rest, e := run[..|run| - 1], run[|run| - 1];
      PlacedAlways(g, j0, rest, l);
      var mid := P.After(g, j0, rest).value;
      if e.LogCas? {
        PlacedAlways(g, j0, rest, e.l);
      }
      hide Placed, Loses, P.Step;
      PlacedWeak(mid, e);
      PlacedStays(g, mid, e, l, Beaten(g, j0, rest, l));
    }
  }

  /** In the phase of a compare-exchange nothing depends on earlier rounds. */
  lemma PlacedWeak(j: State, e: P.Event)
    ensures forall b :: e.LogCas? && e.l < |j.lg| && j.lg[e.l].phase.LCas? && Placed(j, e.l, b) ==>
          Placed(j, e.l, false)
  {
  }

  lemma NotBeaten(g: Guards, j0: State, run: seq<P.Event>, l: nat)
    requires P.After(g, j0, run).Some? && Lossless(g, j0, run)
    ensures !Beaten(g, j0, run, l)
  {
    if run != [] {
      NotBeaten(g, j0, run[..|run| - 1], l);
    }
  }

  // ---------------------------------------------------------------- what is told is durable

  ghost predicate AllUpTo(ids: seq<Nid>, d: nat) { forall i :: 0 <= i < |ids| ==> ids[i].epoch <= d }

  lemma NotifyUpTo(j: State, l: nat, d: nat)
    requires l < |j.lg| && j.lg[l].phase.LNotify? && j.lg[l].phase.dl <= d && AllUpTo(j.notified, d)
    ensures AllUpTo(StepNotify(j, l).notified, d)
  {
    var ids, dl := j.lg[l].pending, j.lg[l].phase.dl;
    forall i | 0 <= i < |UpTo(ids, dl)| ensures UpTo(ids, dl)[i].epoch <= d {
      PL.UpToIn(ids, dl, i);
    }
  }

  /** As long as no compare-exchange loses to a smaller minimum, clients are told of durable epochs only. */
  lemma {:induction false} ToldIsDurable(g: Guards, j0: State, run: seq<P.Event>)
    requires P.Initial(j0) && P.After(g, j0, run).Some? && Lossless(g, j0, run)
    ensures AllUpTo(P.After(g, j0, run).value.notified, P.After(g, j0, run).value.dur)
  {
    if run != [] {
      var rest, e := run[..|run| - 1], run[|run| - 1];
      ToldIsDurable(g, j0, rest);
      var mid := P.After(g, j0, rest).value;
      PlacedAlways(g, j0, rest, 0);
      DurMoves(g, mid, e, 0);
      if e.LogNotify? {
        PlacedAlways(g, j0, rest, e.l);
        NotBeaten(g, j0, rest, e.l);
        NotifyUpTo(mid, e.l, mid.dur);
      } else {
        if e.LogCas? { PlacedAlways(g, j0, rest, e.l); }
        PlacedStays(g, mid, e, 0, Beaten(g, j0, rest, 0));
      }
    }
  }

  /** Logger `l`'s next notification tells a client of an epoch beyond DurableEpoch. */
  ghost predicate TellsBeyond(j: State, l: nat)
    requires l < |j.lg| && j.lg[l].phase.LNotify?
  {
    var j' := StepNotify(j, l);
    exists i :: |j.notified| <= i < |j'.notified| && j'.notified[i].epoch > j'.dur
  }

  /** An id of an epoch beyond DurableEpoch and up to `dl` is waiting. */
  ghost predicate WaitsBetween(j: State, l: nat, dl: nat)
    requires l < |j.lg|
  {
    exists k :: 0 <= k < |j.lg[l].pending| && j.dur < j.lg[l].pending[k].epoch <= dl
  }

  lemma {:induction false} UpToHas(ids: seq<Nid>, d: nat, k: nat) returns (i: nat)
    requires k < |ids| && ids[k].epoch <= d
    ensures i < |UpTo(ids, d)| && UpTo(ids, d)[i] == ids[k]
  {
    if k == 0 {
      i := 0;
    } else {
      i := UpToHas(ids[1..], d, k - 1);
      if ids[0].epoch <= d { i := i + 1; }
    }
  }

  /**
    A client is told of an epoch beyond DurableEpoch exactly when the round's compare-exchange lost to a
    smaller minimum and an id was waiting between the two.
   */
  lemma BeyondIffBeaten(g: Guards, j0: State, run: seq<P.Event>, l: nat)
    requires P.Initial(j0) && P.After(g, j0, run).Some? && l < |P.After(g, j0, run).value.lg|
    requires P.After(g, j0, run).value.lg[l].phase.LNotify?
    ensures var j := P.After(g, j0, run).value;
            TellsBeyond(j, l) <==> Beaten(g, j0, run, l) && WaitsBetween(j, l, j.lg[l].phase.dl)
  {
    LoggerCount(g, j0, run);
    PlacedAlways(g, j0, run, l);
    hide P.After, P.Initial, Beaten;
    BeyondIffWaits(P.After(g, j0, run).value, l);
  }

  lemma LoggerCount(g: Guards, j0: State, run: seq<P.Event>)
    requires P.Initial(j0) && P.After(g, j0, run).Some?
    ensures |P.After(g, j0, run).value.lg| == |j0.lg|
  {
    PlacedAlways(g, j0, run, 0);
  }

  lemma BeyondIffWaits(j: State, l: nat)
    requires l < |j.lg| && j.lg[l].phase.LNotify?
    ensures TellsBeyond(j, l) <==> WaitsBetween(j, l, j.lg[l].phase.dl)
  {
    var ids, dl, j' := j.lg[l].pending, j.lg[l].phase.dl, StepNotify(j, l);
    if i :| |j.notified| <= i < |j'.notified| && j'.notified[i].epoch > j'.dur {
      PL.UpToIn(ids, dl, i - |j.notified|);
      assert j'.notified[i] in ids;
    }
    if k :| 0 <= k < |ids| && j.dur < ids[k].epoch <= dl {
      var i := UpToHas(ids, dl, k);
      assert j'.notified[|j.notified| + i] == ids[k];
    }
  }

  // ---------------------------------------------------------------- the epoch file

  /** A write of the epoch file is outstanding. */
  ghost predicate Outstanding(j: State, l: nat)
    requires l < |j.lg|
  {
    j.lg[l].phase.LPersist? && j.lg[l].phase.dl == j.dur
  }

  /** The file holds DurableEpoch, or a logger is about to write it. */
  ghost predicate FileFollows(j: State) {
    j.pepoch == j.dur || exists l :: 0 <= l < |j.lg| && Outstanding(j, l)
  }

  lemma FollowsStays(g: Guards, j: State, e: P.Event)
    requires P.Enabled(g, j, e) && FileFollows(j) && j.pepoch <= j.dur && !Lowers(j, e)
    requires e.LogPersist? ==> j.lg[e.l].phase.dl <= j.dur
    ensures FileFollows(P.Step(g, j, e))
  {
    var j' := P.Step(g, j, e);
    DurMoves(g, j, e, 0);
    if e.LogCas? && j'.dur != j.dur {
      assert Outstanding(j', e.l);
    } else if e.LogPersist? && j.lg[e.l].phase.dl == j.dur {
      assert j'.pepoch == j'.dur;
    } else if j.pepoch != j.dur {
      var l :| 0 <= l < |j.lg| && Outstanding(j, l);
      PersistStays(g, j, e, l);
      assert Outstanding(j', l);
    }
  }

  lemma PersistStays(g: Guards, j: State, e: P.Event, l: nat)
    requires P.Enabled(g, j, e) && l < |j.lg| && j.lg[l].phase.LPersist? && e != LogPersist(l)
    ensures l < |P.Step(g, j, e).lg| && P.Step(g, j, e).lg[l].phase == j.lg[l].phase
  {
    hide Silo.Step, Silo.Enabled, Enq, FlattenTo, QueueMin, UpTo, Above, Pushed;
  }

  lemma {:induction false} FollowsAlways(g: Guards, j0: State, run: seq<P.Event>)
    requires Guarded(g, j0) && P.Initial(j0) && P.After(g, j0, run).Some? && Rising(g, j0, run)
    ensures FileFollows(P.After(g, j0, run).value)
  {
    if run != [] {
      var rest, e := run[..|run| - 1], run[|run| - 1];
      FollowsAlways(g, j0, rest);
      PAlways(g, j0, rest);
      var mid := P.After(g, j0, rest).value;
      if e.LogPersist? { assert PDur(mid, e.l); }
      FollowsStays(g, mid, e);
    }
  }

  /** A transaction is among those recovery to epoch `d` rebuilds. */
  ghost predicate Recovered(j: State, p: nat, d: nat) { p < PrefixLen(j.s.order, d) }

  lemma ToldIs(j: State, i: nat, d: nat)
    requires PInv(j) && i < |j.notified| && j.notified[i].epoch <= d
    ensures Recovered(j, j.notified[i].p, d)
  {
    var p := j.notified[i].p;
    assert NidOk(j.s.order, j.notified[i]);
    assert OInv(j.s, p);
    PrefixIsAll(j.s, d, p);
  }

  /**
    Whatever a client was told is recovered.  As long as no compare-exchange loses to a smaller minimum it is
    among the transactions of durable epochs; and if the epoch file was never lowered and no write of
    it is outstanding, it is among those of the epoch recovery reads.
   */
  lemma ToldIsRecovered(g: Guards, j0: State, run: seq<P.Event>, i: nat)
    requires Guarded(g, j0) && P.Initial(j0) && P.After(g, j0, run).Some? && Lossless(g, j0, run)
    requires i < |P.After(g, j0, run).value.notified|
    ensures var j := P.After(g, j0, run).value;
            && Recovered(j, j.notified[i].p, j.dur)
            && (Rising(g, j0, run) && (forall l :: 0 <= l < |j.lg| ==> !Outstanding(j, l)) ==>
                Recovered(j, j.notified[i].p, j.pepoch))
  {
    PAlways(g, j0, run);
    ToldIsDurable(g, j0, run);
    if Rising(g, j0, run) {
      FollowsAlways(g, j0, run);
    }
    hide P.After, P.Initial, Lossless, Rising;
    ToldIs(P.After(g, j0, run).value, i, P.After(g, j0, run).value.dur);
  }

  // ---------------------------------------------------------------- a single logger

  ghost predicate OneRound(j: State) {
    && |j.lg| == 1 && j.pepoch <= j.dur && AllUpTo(j.notified, j.pepoch)
    && var ph := j.lg[0].phase;
       && (if ph.LPersist? then ph.dl == j.dur else j.pepoch == j.dur)
       && (ph.LCas? ==> ph.seen == j.dur) && (ph.LNotify? ==> ph.dl <= j.dur)
  }

  lemma OneRoundStays(g: Guards, j: State, e: P.Event)
    requires P.Enabled(g, j, e) && OneRound(j)
    ensures OneRound(P.Step(g, j, e))
  {
    DurMoves(g, j, e, 0);
    if e.LogNotify? {
      NotifyUpTo(j, 0, j.pepoch);
    } else if j.lg[0].phase.LPersist? && e != LogPersist(0) {
      PersistStays(g, j, e, 0);
    }
  }

  /** With a single logger whatever a client was told is always recovered. */
  lemma {:induction false} OneLoggerTells(g: Guards, j0: State, run: seq<P.Event>)
    requires P.Initial(j0) && P.After(g, j0, run).Some? && |j0.lg| == 1
    ensures var j := P.After(g, j0, run).value; OneRound(j) && AllUpTo(j.notified, j.pepoch)
  {
    if run != [] {
      OneLoggerTells(g, j0, run[..|run| - 1]);
      hide OneRound;
      OneRoundStays(g, P.After(g, j0, run[..|run| - 1]).value, run[|run| - 1]);
    }
    assert OneRound(P.After(g, j0, run).value) ==>
          AllUpTo(P.After(g, j0, run).value.notified, P.After(g, j0, run).value.pepoch);
  }
}
