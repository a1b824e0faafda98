/**
  The double check of a read (server/enclave/silo_cc/silo_transaction.cpp, read_internal): a body is loaded only
  after two TID loads in a row that agree on an unlocked, present record.  This is about every read, also those of
  transactions that go on to abort.
 */
module SiloReads {
  import opened Base
  import opened Tid
  import opened Silo
  import opened SiloEpoch
  import SiloTheorems
  import C = SiloClient

  /** What a TID load returns. */
  datatype TidLoad = TidLoad(lock: bool, absent: bool, ver: Ver)

  function LoadOf(s: State, r: Rid): TidLoad {
    if r in s.recs then TidLoad(s.recs[r].lock, s.recs[r].absent, s.recs[r].ver) else TidLoad(true, true, ZERO)
  }

  /** The TID loads of worker `w` since it named the record of its last read. */
  function Loads(s0: State, run: seq<Event>, w: nat): seq<TidLoad>
    requires After(s0, run).Some?
  {
    if run == [] then []
    else
      var rest, e := run[..|run| - 1], run[|run| - 1];
      var s := After(s0, rest).value;
      if e == ReadCheck(w) then Loads(s0, rest, w) + [LoadOf(s, C.LastRead(rest, w))]
      else if e.ReadTid? && e.w == w then [LoadOf(s, e.r)]
      else Loads(s0, rest, w)
  }

  predicate Clear(l: TidLoad, ver: Ver) { l == TidLoad(false, false, ver) }

  /** The last load was clear; or the last two were, and agree. */
  predicate Checked(k: Worker, loads: seq<TidLoad>, r: Rid) {
    var n := |loads|;
    && (k.phase.Checking? ==> k.phase.r == r && n >= 1 && Clear(loads[n - 1], k.phase.ver))
    && (k.phase.Fetching? ==>
          k.phase.r == r && n >= 2 && Clear(loads[n - 2], k.phase.ver) && Clear(loads[n - 1], k.phase.ver))
  }

  /** How a read moves. */
  lemma ReadMoves(s: State, e: Event)
    requires Enabled(s, e)
    ensures e.w < |s.workers| == |Step(s, e).workers|
    ensures var k, k' := s.workers[e.w], Step(s, e).workers[e.w];
            && (k'.phase.Checking? || k'.phase.Fetching? ==> e.ReadTid? || e.ReadCheck?)
            && (e.ReadTid? ==> k'.phase.Checking? && k'.phase.r == e.r && Clear(LoadOf(s, e.r), k'.phase.ver))
            && (e.ReadCheck? && k'.phase.Checking? ==>
                k.phase.Checking? && k'.phase.r == k.phase.r && Clear(LoadOf(s, k.phase.r), k'.phase.ver))
            && (e.ReadCheck? && k'.phase.Fetching? ==>
                k.phase.Checking? && k'.phase == Fetching(k.phase.r, k.phase.ver)
                && Clear(LoadOf(s, k.phase.r), k.phase.ver))
  {
  }

  lemma {:induction false} CheckedAlways(s0: State, run: seq<Event>, w: nat)
    requires Initial(s0) && After(s0, run).Some? && w < |s0.workers|
    ensures var s := After(s0, run).value;
            w < |s.workers| && Checked(s.workers[w], Loads(s0, run, w), C.LastRead(run, w))
  {
    if run != [] {
      var rest, e := run[..|run| - 1], run[|run| - 1];
      CheckedAlways(s0, rest, w);
      var s := After(s0, rest).value;
      OthersKept(s, e);
      ReadMoves(s, e);
      hide Step, Enabled, Initial;
    }
  }

  /**
    In every run, when a worker is about to load a body, its last two TID loads were of that record, agree, and found it
    unlocked and present; and the version recorded with the read is the one they found.
   */
  lemma BodyIsChecked(s0: State, run: seq<Event>, w: nat)
    requires Initial(s0) && After(s0, run + [ReadBody(w)]).Some?
    ensures After(s0, run).Some?
    ensures var loads := Loads(s0, run, w);
            && |loads| >= 2 && loads[|loads| - 2] == loads[|loads| - 1]
            && Clear(loads[|loads| - 1], C.LastVersion(s0, run, w))
  {
    assert (run + [ReadBody(w)])[..|run + [ReadBody(w)]| - 1] == run;
    SiloTheorems.InitKept(s0, run);
    CheckedAlways(s0, run, w);
    C.TraceIs(s0, run);
    assert C.Keeps(s0, run, w);
  }
}
