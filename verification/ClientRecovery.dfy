/**
  Crash recovery in the clients' terms: what a replay of the log files rebuilds is what the clients asked
  for, one transaction at a time.
 */
module ClientRecovery {
  import opened Base
  import opened Silo
  import C = SiloClient
  import ST = SiloTheorems
  import P = Pipeline
  import opened Pipeline
  import opened PipeTheorems
  import R = Recovery

  type State = P.State

  /** The protocol's part of a run of the pipeline. */
  function Protocol(run: seq<P.Event>): seq<Silo.Event> {
    if run == [] then []
    else
      var rest, e := run[..|run| - 1], run[|run| - 1];
      match e
      case Work(se) => Protocol(rest) + [se]
      case WalDone(w) => Protocol(rest) + [Logged(w)]
      case _ => Protocol(rest)
  }

  lemma StepIs(g: Guards, j: State, e: P.Event)
    requires P.Enabled(g, j, e)
    ensures match e
            case Work(se) => Silo.Enabled(j.s, se) && P.Step(g, j, e).s == Silo.Step(j.s, se)
            case WalDone(w) => Silo.Enabled(j.s, Logged(w)) && P.Step(g, j, e).s == Silo.Step(j.s, Logged(w))
            case _ => P.Step(g, j, e).s == j.s
  {
    if e.Work? { hide Silo.Step, Silo.Enabled; }
  }

  /** It is a run of the protocol. */
  lemma {:induction false} ProtocolRuns(g: Guards, j0: State, run: seq<P.Event>)
    requires P.After(g, j0, run).Some?
    ensures Silo.After(j0.s, Protocol(run)) == Some(P.After(g, j0, run).value.s)
  {
    if run != [] {
      var rest, e := run[..|run| - 1], run[|run| - 1];
      ProtocolRuns(g, j0, rest);
      StepIs(g, P.After(g, j0, rest).value, e);
      hide P.Step, P.Enabled, Silo.Step, Silo.Enabled;
      var before := Protocol(rest);
      if e.Work? || e.WalDone? {
        var se := if e.Work? then e.e else Logged(e.w);
        assert (before + [se])[..|before + [se]| - 1] == before;
      }
    }
  }

  predicate Does(t: C.Tx, r: Rid, op: Op) {
    t.committed && exists m :: 0 <= m < |t.ops| && t.ops[m].r == r && t.ops[m].op == op
  }

  /** Some transaction writes a key that an earlier one deleted. */
  ghost predicate WritesDeleted(txs: seq<C.Tx>, n: nat)
    requires n <= |txs|
  {
    exists p, q, r :: 0 <= p < q < n && Does(txs[p], r, Delete) && Does(txs[q], r, Write)
  }

  lemma DoesIs(e: Entry, t: C.Tx, r: Rid, op: Op)
    requires C.IsTx(e, t)
    ensures Does(t, r, op) <==> R.R.HasOp(e, r, op)
  {
  }

  lemma WritesDeletedIs(order: seq<Entry>, txs: seq<C.Tx>, n: nat)
    requires C.AreTxs(order, txs) && n <= |order|
    ensures R.R.NoWriteAfterDelete(order, n) <==> !WritesDeleted(txs, n)
  {
    hide Does, R.R.HasOp;
    forall p, r, op | 0 <= p < |order| ensures Does(txs[p], r, op) <==> R.R.HasOp(order[p], r, op) {
      DoesIs(order[p], txs[p], r, op);
    }
  }

  /**
    Crash in any reachable state and recover to any epoch `d` up to DurableEpoch.  Replaying the log files
    rebuilds what the clients of the committed transactions of epochs up to `d` asked for, one transaction at
    a time, unless one of them wrote a key an earlier one had deleted; then the replay dereferences a null
    pointer.
   */
  lemma ClientCrashRecovery(g: Guards, j0: State, run: seq<P.Event>, d: nat, batches: seq<seq<LogRec>>)
    requires Guarded(g, j0) && P.Initial(j0) && P.After(g, j0, run).Some?
    requires d <= P.After(g, j0, run).value.dur && R.Batches(P.After(g, j0, run).value.lg, d, batches)
    ensures Silo.After(j0.s, Protocol(run)).Some?
    ensures var j := P.After(g, j0, run).value;
            var txs, n := C.Trace(j0.s, Protocol(run)), PrefixLen(j.s.order, d);
            && n <= |txs| == |j.s.order|
            && R.R.Run(Some(j0.s.init), R.Flatten(batches))
                == if WritesDeleted(txs, n) then None else Some(C.SerialOf(j0.s.init, txs, n))
  {
    var j, events := P.After(g, j0, run).value, Protocol(run);
    ProtocolRuns(g, j0, run);
    C.TraceIs(j0.s, events);
    ST.InitKept(j0.s, events);
    R.CrashRecovery(g, j0, run, d, batches);
    hide P.After, P.Initial, Silo.After, R.Batches, R.R.Run, R.Flatten;
    var txs, n := C.Trace(j0.s, events), PrefixLen(j.s.order, d);
    WritesDeletedIs(j.s.order, txs, n);
    C.SerialIs(j0.s.init, j.s.order, txs, n);
  }
}
