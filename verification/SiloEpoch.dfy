/**
  Epoch lag: with the load of GlobalEpoch and the store of ThLocalEpoch as separate steps and a
  leader that scans ThLocalEpoch one load at a time, no worker that has ever stored an epoch is more
  than one behind GlobalEpoch (server/enclave/silo_cc/silo_util.cpp, silo_transaction.cpp epochWork).
 */
module SiloEpoch {
  import opened Base
  import opened Silo

  predicate InWindow(e: nat, ge: nat) { ge <= e + 1 && e <= ge }

  /** What the scan of worker 0 has established so far. */
  ghost predicate ScanInv(s: State, k: Worker) {
    k.phase.Leading? ==>
      k.phase.now == s.ge && k.phase.i >= 1
      && forall m :: 1 <= m < k.phase.i && m < |s.workers| ==> s.workers[m].local == s.ge
  }

  ghost predicate LagInv(s: State, w: nat)
    requires w < |s.workers|
  {
    var k := s.workers[w];
    && (k.local == 0 || InWindow(k.local, s.ge))
    && (k.phase.Refreshed? || k.phase.Loaded? ==> k.local <= k.epoch && InWindow(k.epoch, s.ge) && k.epoch >= 1)
    && ScanInv(s, k)
    && (k.phase.Leading? ==> w == 0)
    && (w == 0 && !k.phase.Refreshing? && !k.phase.Refreshed? ==> k.local == 0 || k.local == s.ge)
    && (w == 0 && (k.phase.Refreshed? || k.phase.Loaded?) ==> k.epoch == s.ge)
  }

  ghost predicate EpochInv(s: State) {
    s.ge >= 1 && forall w :: 0 <= w < |s.workers| ==> LagInv(s, w)
  }

  /** The only step that moves GlobalEpoch. */
  lemma LeadKeeps(s: State, w: nat)
    requires EpochInv(s) && Enabled(s, Lead(w))
    ensures EpochInv(StepLead(s, w))
  {
    var s' := StepLead(s, w);
    assert LagInv(s, w);
    forall u | 0 <= u < |s'.workers| ensures LagInv(s', u) {
      assert LagInv(s, u);
    }
  }

  predicate EpochEvent(e: Event) {
    e.EwBegin? || e.EwLoad? || e.EwStore? || e.LoadEpoch? || e.StoreEpoch?
  }

  /** A step changes the record of its own worker only. */
  lemma OthersKept(s: State, e: Event)
    requires Enabled(s, e)
    ensures |Step(s, e).workers| == |s.workers|
    ensures forall u :: 0 <= u < |s.workers| && u != e.w ==> Step(s, e).workers[u] == s.workers[u]
  {
  }

  /** All other steps leave the epochs alone. */
  lemma QuietStep(s: State, e: Event)
    requires Enabled(s, e) && !EpochEvent(e) && !e.Lead?
    ensures Step(s, e).ge == s.ge && |Step(s, e).workers| == |s.workers|
    ensures var k, k' := s.workers[e.w], Step(s, e).workers[e.w];
            k'.local == k.local && !k'.phase.Leading? && !k'.phase.Refreshed? && !k'.phase.Loaded?
                && !k.phase.Refreshed? && !k.phase.Refreshing?
  {
  }

  lemma EpochEventKeeps(s: State, e: Event)
    requires EpochInv(s) && Enabled(s, e) && EpochEvent(e)
    ensures EpochInv(Step(s, e))
  {
    var s' := Step(s, e);
    OthersKept(s, e);
    assert LagInv(s, e.w);
    forall u | 0 <= u < |s'.workers| ensures LagInv(s', u) {
      assert LagInv(s, u);
    }
  }

  lemma EpochKeeps(s: State, e: Event)
    requires EpochInv(s) && Enabled(s, e)
    ensures EpochInv(Step(s, e)) && |Step(s, e).workers| == |s.workers|
  {
    OthersKept(s, e);
    if e.Lead? {
      LeadKeeps(s, e.w);
    } else if EpochEvent(e) {
      EpochEventKeeps(s, e);
    } else {
      QuietStep(s, e);
      var s' := Step(s, e);
      assert LagInv(s, e.w);
      forall u | 0 <= u < |s'.workers| ensures LagInv(s', u) {
        assert LagInv(s, u);
      }
    }
  }

  lemma {:induction false} EpochAlways(s0: State, run: seq<Event>)
    requires Initial(s0) && After(s0, run).Some?
    ensures EpochInv(After(s0, run).value) && |After(s0, run).value.workers| == |s0.workers|
  {
    if run != [] {
      EpochAlways(s0, run[..|run| - 1]);
      EpochKeeps(After(s0, run[..|run| - 1]).value, run[|run| - 1]);
    }
  }

  /** In every reachable state every worker that has loaded an epoch is within one of GlobalEpoch. */
  lemma EpochLag(s0: State, run: seq<Event>, w: nat)
    requires Initial(s0) && After(s0, run).Some? && w < |s0.workers|
    ensures |After(s0, run).value.workers| == |s0.workers|
    ensures var s := After(s0, run).value;
            s.workers[w].local != 0 ==> s.ge - 1 <= s.workers[w].local <= s.ge
  {
    EpochAlways(s0, run);
    assert LagInv(After(s0, run).value, w);
  }
}
