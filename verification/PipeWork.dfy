/**
  What one step of the commit protocol means to the pipeline: committed entries stay, epochs rise,
  and a worker's log changes only where wal has yet to push.
 */
module PipeWork {
  import opened Silo
  import opened SiloInv
  import opened SiloEpoch
  import opened Pipeline
  import opened PipeInv

  type SState = Silo.State
  type SEvent = Silo.Event

  /** How a step changes the order: not at all, by one pending entry, or by deciding one pending entry. */
  ghost predicate OrderMove(s: SState, s': SState, e: SEvent) {
    || s'.order == s.order
    || (e.LoadEpoch? && |s'.order| == |s.order| + 1 && s'.order[..|s.order|] == s.order
        && s'.order[|s.order|].status.Pending?)
    || ((e.ValidateNext? || e.Commit?) && |s'.order| == |s.order| && e.w < |s.workers| && s.workers[e.w].pos < |s.order|
        && s.order[s.workers[e.w].pos].status.Pending? && s.order[s.workers[e.w].pos].w == e.w
        && s'.order == s.order[s.workers[e.w].pos := s'.order[s.workers[e.w].pos]]
        && s'.order[s.workers[e.w].pos].w == e.w
        && (e.ValidateNext? ==> !s'.order[s.workers[e.w].pos].status.Committed?))
  }

  lemma StepOrder(s: SState, e: SEvent)
    requires Inv(s) && Silo.Enabled(s, e)
    ensures OrderMove(s, Silo.Step(s, e), e)
  {
    assert WInv(s, e.w);
    var s' := Silo.Step(s, e);
    if e.LoadEpoch? {
      assert s'.order[..|s.order|] == s.order;
    } else if !e.ValidateNext? && !e.Commit? {
      QuietOrder(s, e);
    }
  }

  lemma QuietOrder(s: SState, e: SEvent)
    requires Silo.Enabled(s, e) && !e.LoadEpoch? && !e.ValidateNext? && !e.Commit?
    ensures Silo.Step(s, e).order == s.order
  {
  }

  lemma CommittedStays(s: SState, e: SEvent, p: nat)
    requires Inv(s) && Silo.Enabled(s, e) && p < |s.order| && s.order[p].status.Committed?
    ensures p < |Silo.Step(s, e).order| && Silo.Step(s, e).order[p] == s.order[p]
  {
    StepOrder(s, e);
  }

  /** ThLocalEpoch and GlobalEpoch never go back. */
  lemma EpochsRise(s: SState, e: SEvent, u: nat)
    requires EpochInv(s) && Silo.Enabled(s, e) && u < |s.workers|
    ensures s.ge <= Silo.Step(s, e).ge && u < |Silo.Step(s, e).workers|
    ensures s.workers[u].local <= Silo.Step(s, e).workers[u].local
  {
    assert LagInv(s, u);
    OthersKept(s, e);
    if !e.Lead? && !EpochEvent(e) {
      QuietStep(s, e);
    }
  }

  /** How the acting worker moves in and out of validation. */
  lemma InFlightMove(s: SState, e: SEvent)
    requires Inv(s) && Silo.Enabled(s, e)
    ensures e.w < |Silo.Step(s, e).workers|
    ensures var k, k' := s.workers[e.w], Silo.Step(s, e).workers[e.w];
            InFlight(k'.phase) ==> (e.LoadEpoch? && k'.epoch == s.ge) || (InFlight(k.phase) && k'.epoch == k.epoch)
  {
  }

  /** How it moves in and out of wal. */
  lemma {:induction false} LoggingMove(s: SState, e: SEvent)
    requires Inv(s) && Silo.Enabled(s, e)
    ensures e.w < |Silo.Step(s, e).workers|
    ensures var k, k' := s.workers[e.w], Silo.Step(s, e).workers[e.w];
            && (k'.phase.Logging? ==>
                (k.phase.Logging? && k' == k) || (e.Commit? && k'.pos == k.pos && k'.epoch == k.epoch))
            && (e.Commit? ==> k'.phase.Logging?)
            && (k.phase.Logging? ==> e.Logged?)
  {
  }

  /** Which phases matter: how the acting worker moves in and out of having unlogged work. */
  lemma UnloggedMove(s: SState, e: SEvent)
    requires Inv(s) && Silo.Enabled(s, e)
    ensures e.w < |Silo.Step(s, e).workers|
    ensures var k, k' := s.workers[e.w], Silo.Step(s, e).workers[e.w];
            && (k'.phase.Logging? ==>
                (k.phase.Logging? && k' == k) || (e.Commit? && k'.pos == k.pos && k'.epoch == k.epoch))
            && (e.Commit? ==> k'.phase.Logging?)
            && (InFlight(k'.phase) ==> (e.LoadEpoch? && k'.epoch == s.ge) || (InFlight(k.phase) && k'.epoch == k.epoch))
            && (k.phase.Logging? ==> e.Logged?)
  {
    LoggingMove(s, e);
    InFlightMove(s, e);
    hide Inv, Silo.Step, Silo.Enabled, InFlight;
  }

  /** A bound on what is still to come survives every step. */
  lemma ComesStays(s: SState, e: SEvent, u: nat, pushed: bool, m: nat)
    requires Inv(s) && EpochInv(s) && Silo.Enabled(s, e) && u < |s.workers|
    requires e.Logged? && e.w == u ==> pushed
    requires ComesAt(s.workers[u], s.ge, pushed, m)
    ensures u < |Silo.Step(s, e).workers|
    ensures ComesAt(Silo.Step(s, e).workers[u], Silo.Step(s, e).ge, pushed && !(e.Logged? && e.w == u), m)
  {
    OthersKept(s, e);
    EpochsRise(s, e, u);
    if u == e.w {
      UnloggedMove(s, e);
    }
  }

  // ---------------------------------------------------------------- the worker's log

  lemma {:induction false} SameLog(a: seq<Entry>, b: seq<Entry>, n: nat, w: nat)
    requires n <= |a| && n <= |b|
    requires forall q :: 0 <= q < n && a[q].status.Committed? && a[q].w == w ==> b[q] == a[q]
    requires forall q :: 0 <= q < n && b[q].status.Committed? && b[q].w == w ==> b[q] == a[q]
    ensures WorkerLog(a, n, w) == WorkerLog(b, n, w)
  {
    if n > 0 {
      SameLog(a, b, n - 1, w);
    }
  }

  lemma {:induction false} LogTail(a: seq<Entry>, m: nat, n: nat, w: nat)
    requires m <= n <= |a|
    requires forall q :: m <= q < n && a[q].status.Committed? ==> a[q].w != w
    ensures WorkerLog(a, n, w) == WorkerLog(a, m, w)
  {
    if m < n {
      LogTail(a, m, n - 1, w);
    }
  }

  /** The acting worker commits: its log up to the new entry is its log before. */
  lemma CommitLog(s: SState, w: nat)
    requires Inv(s) && Silo.Enabled(s, Commit(w))
    ensures var s' := Silo.Step(s, Commit(w));
            LoggedTo(s', w, false) <= |s'.order|
            && WorkerLog(s'.order, LoggedTo(s', w, false), w) == WorkerLog(s.order, |s.order|, w)
  {
    assert WInv(s, w);
    var s', pos := Silo.Step(s, Commit(w)), s.workers[w].pos;
    LogTail(s.order, pos, |s.order|, w);
    SameLog(s.order, s'.order, pos, w);
  }

  lemma LogStays(s: SState, e: SEvent, u: nat, pushed: bool)
    requires Inv(s) && EpochInv(s) && Silo.Enabled(s, e) && u < |s.workers|
    requires (pushed ==> s.workers[u].phase.Logging?) && (e.Logged? && e.w == u ==> pushed)
    requires LoggedTo(s, u, pushed) <= |s.order|
    ensures var s' := Silo.Step(s, e);
            var pushed' := pushed && !(e.Logged? && e.w == u);
            u < |s'.workers| && LoggedTo(s', u, pushed') <= |s'.order|
            && WorkerLog(s'.order, LoggedTo(s', u, pushed'), u) == WorkerLog(s.order, LoggedTo(s, u, pushed), u)
  {
    var s' := Silo.Step(s, e);
    OthersKept(s, e);
    StepOrder(s, e);
    if u == e.w {
      UnloggedMove(s, e);
    }
    if u == e.w && e.Commit? {
      CommitLog(s, u);
    } else {
      var n := LoggedTo(s, u, pushed);
      SameLog(s.order, s'.order, n, u);
      if e.LoadEpoch? && n == |s.order| {
        LogTail(s'.order, n, |s'.order|, u);
      }
    }
  }

  // ---------------------------------------------------------------- summary

  /** What worker `u` keeps: the bound on what is to come, and its log. */
  ghost predicate KeptFor(s: SState, s': SState, u: nat, pushed: bool, pushed': bool) {
    && u < |s.workers| == |s'.workers|
    && (forall m {:trigger ComesAt(s'.workers[u], s'.ge, pushed', m)} ::
          ComesAt(s.workers[u], s.ge, pushed, m) ==> ComesAt(s'.workers[u], s'.ge, pushed', m))
    && LoggedTo(s, u, pushed) <= |s.order| && LoggedTo(s', u, pushed') <= |s'.order|
    && WorkerLog(s'.order, LoggedTo(s', u, pushed'), u) == WorkerLog(s.order, LoggedTo(s, u, pushed), u)
  }

  /** A protocol step of worker `w`, as far as the pipeline can tell. */
  ghost predicate Moved(s: SState, s': SState, w: nat, logged: bool, begin: bool) {
    && w < |s.workers| == |s'.workers| && s.ge <= s'.ge
    && (forall u :: 0 <= u < |s.workers| ==>
        s.workers[u].local <= s'.workers[u].local && (u != w ==> s'.workers[u] == s.workers[u]))
    && (forall p :: 0 <= p < |s.order| && s.order[p].status.Committed? ==> p < |s'.order| && s'.order[p] == s.order[p])
    && (s.workers[w].phase.Logging? <==> logged)
    && (logged ==> s.workers[w].mrc.epoch == s.workers[w].local)
    && (Resting(s.workers[w].phase) && !begin ==> Resting(s'.workers[w].phase))
  }

  lemma StepMoves(s: SState, e: SEvent)
    requires Inv(s) && EpochInv(s) && Silo.Enabled(s, e)
    ensures Moved(s, Silo.Step(s, e), e.w, e.Logged?, e.Begin?)
  {
    var s' := Silo.Step(s, e);
    OthersKept(s, e);
    forall u | 0 <= u < |s.workers| ensures s.workers[u].local <= s'.workers[u].local {
      EpochsRise(s, e, u);
    }
    forall p | 0 <= p < |s.order| && s.order[p].status.Committed? ensures p < |s'.order| && s'.order[p] == s.order[p] {
      CommittedStays(s, e, p);
    }
    EpochsRise(s, e, e.w);
    StepPhase(s, e);
  }

  lemma StepPhase(s: SState, e: SEvent)
    requires Inv(s) && Silo.Enabled(s, e)
    ensures e.w < |Silo.Step(s, e).workers|
    ensures s.workers[e.w].phase.Logging? <==> e.Logged?
    ensures e.Logged? ==> s.workers[e.w].mrc.epoch == s.workers[e.w].local
    ensures Resting(s.workers[e.w].phase) && !e.Begin? ==> Resting(Silo.Step(s, e).workers[e.w].phase)
  {
    assert WInv(s, e.w);
    if e.Logged? {
      assert OInv(s, s.workers[e.w].pos);
    }
  }

  lemma StepKept(s: SState, e: SEvent, u: nat, pushed: bool)
    requires Inv(s) && EpochInv(s) && Silo.Enabled(s, e) && u < |s.workers|
    requires (pushed ==> s.workers[u].phase.Logging?) && (e.Logged? && e.w == u ==> pushed)
    requires LoggedTo(s, u, pushed) <= |s.order|
    ensures KeptFor(s, Silo.Step(s, e), u, pushed, pushed && !(e.Logged? && e.w == u))
  {
    var s' := Silo.Step(s, e);
    var pushed' := pushed && !(e.Logged? && e.w == u);
    OthersKept(s, e);
    LogStays(s, e, u, pushed);
    forall m: nat | ComesAt(s.workers[u], s.ge, pushed, m) ensures ComesAt(s'.workers[u], s'.ge, pushed', m) {
      ComesStays(s, e, u, pushed, m);
    }
  }
}
