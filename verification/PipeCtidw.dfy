/**
  What CTIDW says (server/enclave/silo_cc/silo_transaction.cpp, wal and epochWork): a worker that is not
  in wal has stored the epoch of its last transaction or a later one, and never one it has not itself
  entered.
 */
module PipeCtidw {
  import opened Base
  import opened Silo
  import Tid
  import opened SiloInv
  import opened SiloEpoch
  import P = Pipeline
  import opened Pipeline
  import opened PipeInv
  import opened PipeWork
  import opened PipeTheorems

  type State = PipeInv.State

  ghost predicate Follows(j: State, w: nat)
    requires w < |j.wp| && w < |j.s.workers|
  {
    var k := j.s.workers[w];
    k.mrc.epoch <= k.local && (!k.phase.Logging? ==> k.mrc.epoch <= j.wp[w].ctidw)
  }

  /** A commit takes its epoch from ThLocalEpoch; no other step changes the worker's last TID. */
  lemma MrcMoves(s: Silo.State, e: Silo.Event)
    requires Inv(s) && Silo.Enabled(s, e)
    ensures e.w < |Silo.Step(s, e).workers|
    ensures var k, k' := s.workers[e.w], Silo.Step(s, e).workers[e.w];
            if e.Commit? then k'.mrc.epoch == k.local == k'.local else k'.mrc == k.mrc
  {
    if e.Commit? { CommitEpoch(s, e.w); }
  }

  lemma CommitEpoch(s: Silo.State, w: nat)
    requires Inv(s) && Silo.Enabled(s, Commit(w))
    ensures w < |StepCommit(s, w).workers| && StepCommit(s, w).workers[w].mrc.epoch == s.workers[w].local
  {
    var k := s.workers[w];
    assert WInv(s, w) && WEntry(s, w) && WMax(s, w);
    hide WInv, WPost, WReads;
    Tid.CommitVerExceeds(k.maxr, k.maxw, k.mrc, k.local);
  }

  lemma ProtocolFollows(g: Guards, j: State, e: P.Event, w: nat)
    requires PInv(j) && P.Enabled(g, j, e) && (e.Work? || e.WalDone?) && w < |j.wp| && Follows(j, w)
    ensures w < |P.Step(g, j, e).wp| && w < |P.Step(g, j, e).s.workers| && Follows(P.Step(g, j, e), w)
  {
    var se := if e.Work? then e.e else Logged(e.w);
    EpochsRise(j.s, se, w);
    OthersKept(j.s, se);
    MrcMoves(j.s, se);
    LoggingMove(j.s, se);
    hide PInv, Silo.Step, Silo.Enabled;
  }

  lemma OtherFollows(g: Guards, j: State, e: P.Event, w: nat)
    requires P.Enabled(g, j, e) && !e.Work? && !e.WalDone? && w < |j.wp| && Follows(j, w)
    ensures w < |P.Step(g, j, e).wp| && w < |P.Step(g, j, e).s.workers| && Follows(P.Step(g, j, e), w)
  {
    hide Enq, FlattenTo, QueueMin, UpTo, Above, Passed, Pushed;
  }

  /**
    In every reachable state CTIDW lies between the epoch of the last transaction and ThLocalEpoch, but for
    wal itself.
   */
  lemma {:induction false} CtidwFollows(g: Guards, j0: State, run: seq<P.Event>, w: nat)
    requires Guarded(g, j0) && P.Initial(j0) && P.After(g, j0, run).Some? && w < |j0.wp|
    ensures var j := P.After(g, j0, run).value;
            && w < |j.wp| == |j.s.workers| && j.wp[w].ctidw <= j.s.workers[w].local
            && (!j.s.workers[w].phase.Logging? ==> j.s.workers[w].mrc.epoch <= j.wp[w].ctidw)
  {
    FollowsAlways(g, j0, run, w);
    PAlways(g, j0, run);
    assert PWork(P.After(g, j0, run).value, w);
  }

  lemma {:induction false} FollowsAlways(g: Guards, j0: State, run: seq<P.Event>, w: nat)
    requires Guarded(g, j0) && P.Initial(j0) && P.After(g, j0, run).Some? && w < |j0.wp|
    ensures var j := P.After(g, j0, run).value; w < |j.wp| && w < |j.s.workers| && Follows(j, w)
  {
    if run != [] {
      FollowsAlways(g, j0, run[..|run| - 1], w);
      PAlways(g, j0, run[..|run| - 1]);
      hide Follows;
      var j, e := P.After(g, j0, run[..|run| - 1]).value, run[|run| - 1];
      if e.Work? || e.WalDone? { ProtocolFollows(g, j, e, w); } else { OtherFollows(g, j, e, w); }
    }
  }
}
