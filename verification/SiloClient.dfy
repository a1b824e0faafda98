/**
  The commit protocol seen from its clients: what was read, written and deleted is taken from the events
  of a run alone, and the read and write sets the protocol keeps are shown to be exactly that
  (server/enclave/silo_cc/silo_transaction.cpp, read_internal, write, insert, tx_delete).
 */
module SiloClient {
  import opened Base
  import opened Tid
  import opened Silo
  import opened SiloInv
  import opened SiloEpoch
  import opened SiloTheorems

  // ---------------------------------------------------------------- what a worker's events ask for

  /** The record named by worker `w`'s last read. */
  function LastRead(run: seq<Event>, w: nat): Rid {
    if run == [] then 0
    else
      var rest, e := run[..|run| - 1], run[|run| - 1];
      if e.ReadTid? && e.w == w then e.r else LastRead(rest, w)
  }

  function VersionIn(s: State, r: Rid): Ver { if r in s.recs then s.recs[r].ver else ZERO }
  function BodyIn(s: State, r: Rid): Option<Val> { if r in s.recs then Some(s.recs[r].body) else None }

  /** The version its last TID load of a read returned. */
  function LastVersion(s0: State, run: seq<Event>, w: nat): Ver
    requires After(s0, run).Some?
  {
    if run == [] then ZERO
    else
      var rest, e := run[..|run| - 1], run[|run| - 1];
      if (e.ReadTid? || e.ReadCheck?) && e.w == w then VersionIn(After(s0, rest).value, LastRead(run, w))
      else LastVersion(s0, rest, w)
  }

  /**
    What event `e` after `run` adds to the reads: a body load the record named, the version loaded last
    and the body; an insert its reservation.
   */
  function Yield(s0: State, run: seq<Event>, e: Event): Option<RElem>
    requires After(s0, run).Some?
  {
    match e
    case ReadBody(w) =>
      Some(RElem(LastRead(run, w), LastVersion(s0, run, w), BodyIn(After(s0, run).value, LastRead(run, w))))
    case AddInsert(_, r, _) => Some(RElem(r, ZERO, None))
    case _ => None
  }

  /** What it adds to the operations. */
  function Ask(e: Event): Option<WElem> {
    match e
    case AddWrite(_, r, op, val) => Some(WElem(r, op, val))
    case AddInsert(_, r, val) => Some(WElem(r, Insert, val))
    case _ => None
  }

  function More<T>(xs: seq<T>, x: Option<T>): seq<T> { if x.Some? then xs + [x.value] else xs }

  /** What the reads of worker `w`'s transaction under way have returned, in order. */
  function ClientReads(s0: State, run: seq<Event>, w: nat): seq<RElem>
    requires After(s0, run).Some?
  {
    if run == [] then []
    else
      var rest, e := run[..|run| - 1], run[|run| - 1];
      if e == Begin(w) then [] else More(ClientReads(s0, rest, w), if e.w == w then Yield(s0, rest, e) else None)
  }

  /** What it has written, inserted and deleted, in order. */
  function ClientOps(run: seq<Event>, w: nat): seq<WElem> {
    if run == [] then []
    else
      var rest, e := run[..|run| - 1], run[|run| - 1];
      if e == Begin(w) then [] else More(ClientOps(rest, w), if e.w == w then Ask(e) else None)
  }

  /** A transaction as its events tell it. */
  datatype Tx = Tx(w: nat, seen: seq<RElem>, ops: seq<WElem>, committed: bool)

  /** The last of worker `w`'s transactions. */
  function LastOf(txs: seq<Tx>, w: nat): (p: int)
    ensures -1 <= p < |txs| && (p >= 0 ==> txs[p].w == w) && forall q :: p < q < |txs| ==> txs[q].w != w
  {
    if txs == [] then -1 else if txs[|txs| - 1].w == w then |txs| - 1 else LastOf(txs[..|txs| - 1], w)
  }

  /** All transactions in the order of their epoch loads. */
  function Trace(s0: State, run: seq<Event>): seq<Tx>
    requires After(s0, run).Some?
  {
    if run == [] then []
    else
      var rest, e := run[..|run| - 1], run[|run| - 1];
      var before := Trace(s0, rest);
      if e.LoadEpoch? then before + [Tx(e.w, ClientReads(s0, rest, e.w), ClientOps(rest, e.w), false)]
      else if e.Commit? && LastOf(before, e.w) >= 0 then
        before[LastOf(before, e.w) := before[LastOf(before, e.w)].(committed := true)]
      else before
  }

  // ---------------------------------------------------------------- the protocol keeps exactly that

  /** Worker `w`'s sets hold what its events asked for. */
  ghost predicate Keeps(s0: State, run: seq<Event>, w: nat)
    requires After(s0, run).Some? && w < |After(s0, run).value.workers|
  {
    var k := After(s0, run).value.workers[w];
    !Resting(k.phase) ==>
      && k.rset == ClientReads(s0, run, w) && k.wset == ClientOps(run, w)
      && (k.phase.Checking? || k.phase.Fetching? ==>
          k.phase.r == LastRead(run, w) && k.phase.ver == LastVersion(s0, run, w))
  }

  /** An entry of the serial order is the transaction its events tell. */
  predicate IsTx(e: Entry, t: Tx) {
    e.w == t.w && e.rset == t.seen && e.wset == t.ops && (e.status.Committed? <==> t.committed)
  }

  predicate AreTxs(order: seq<Entry>, txs: seq<Tx>) {
    |order| == |txs| && forall p :: 0 <= p < |txs| ==> IsTx(order[p], txs[p])
  }

  /** How the steps that read, write and insert move the sets of the worker that takes them. */
  lemma SetsGrow(s: State, e: Event)
    requires Enabled(s, e) && (e.Begin? || e.ReadBody? || e.AddInsert? || e.AddWrite?)
    ensures e.w < |s.workers| == |Step(s, e).workers|
    ensures var k, k' := s.workers[e.w], Step(s, e).workers[e.w];
            && k'.phase == Exec && (if e.Begin? then k'.rset == [] && k'.wset == [] else !Resting(k.phase))
            && (e.ReadBody? ==> k.phase.Fetching? && k'.wset == k.wset && k.phase.r in s.recs
                                && k'.rset == k.rset + [RElem(k.phase.r, k.phase.ver, Some(s.recs[k.phase.r].body))])
            && (e.AddInsert? ==>
                k'.rset == k.rset + [RElem(e.r, ZERO, None)] && k'.wset == k.wset + [WElem(e.r, Insert, e.val)])
            && (e.AddWrite? ==> k'.rset == k.rset && k'.wset == k.wset + [WElem(e.r, e.op, e.val)])
  {
  }

  /** The other steps leave them alone until the transaction is over. */
  lemma SetsStay(s: State, e: Event)
    requires Enabled(s, e) && !e.Begin? && !e.ReadBody? && !e.AddInsert? && !e.AddWrite?
    ensures e.w < |s.workers| == |Step(s, e).workers|
    ensures var k, k' := s.workers[e.w], Step(s, e).workers[e.w];
            Resting(k'.phase) || (!Resting(k.phase) && k'.rset == k.rset && k'.wset == k.wset)
  {
  }

  /** And how it moves through a read. */
  lemma ReadMoves(s: State, e: Event)
    requires Inv(s) && Enabled(s, e)
    ensures e.w < |s.workers| == |Step(s, e).workers|
    ensures var k, k' := s.workers[e.w], Step(s, e).workers[e.w];
            && (k'.phase.Checking? ==>
                if e.ReadTid? then e.r in s.recs && k'.phase == Checking(e.r, s.recs[e.r].ver)
                else e.ReadCheck? && k.phase.Checking? && k.phase.r in s.recs
                     && k'.phase == Checking(k.phase.r, s.recs[k.phase.r].ver))
            && (k'.phase.Fetching? ==>
                e.ReadCheck? && k.phase.Checking? && k.phase.r in s.recs && s.recs[k.phase.r].ver == k.phase.ver
                && k'.phase == Fetching(k.phase.r, k.phase.ver))
  {
  }

  lemma KeepsOther(s0: State, run: seq<Event>, e: Event, w: nat)
    requires After(s0, run).Some? && After(s0, run + [e]).Some? && w < |After(s0, run).value.workers| && e.w != w
    requires Keeps(s0, run, w)
    ensures w < |After(s0, run + [e]).value.workers| && Keeps(s0, run + [e], w)
  {
    var s := After(s0, run).value;
    assert (run + [e])[..|run + [e]| - 1] == run;
    OthersKept(s, e);
    hide Enabled, Step;
  }

  /** How the record and the version of a read under way follow the events. */
  lemma {:induction false} LastMoves(s0: State, run: seq<Event>, e: Event)
    requires After(s0, run).Some? && After(s0, run + [e]).Some?
    ensures LastRead(run + [e], e.w) == if e.ReadTid? then e.r else LastRead(run, e.w)
    ensures LastVersion(s0, run + [e], e.w)
            == if e.ReadTid? || e.ReadCheck? then VersionIn(After(s0, run).value, LastRead(run + [e], e.w))
               else LastVersion(s0, run, e.w)
  {
    hide Enabled, Step;
    assert (run + [e])[..|run + [e]| - 1] == run;
  }

  lemma {:induction false} ClientMoves(s0: State, run: seq<Event>, e: Event)
    requires After(s0, run).Some? && After(s0, run + [e]).Some?
    ensures ClientReads(s0, run + [e], e.w)
          == if e.Begin? then [] else More(ClientReads(s0, run, e.w), Yield(s0, run, e))
    ensures ClientOps(run + [e], e.w) == if e.Begin? then [] else More(ClientOps(run, e.w), Ask(e))
  {
    hide Enabled, Step, Yield, Ask;
    assert (run + [e])[..|run + [e]| - 1] == run;
  }

  lemma KeepsOwn(s0: State, run: seq<Event>, e: Event)
    requires After(s0, run).Some? && After(s0, run + [e]).Some? && e.w < |After(s0, run).value.workers|
    requires Inv(After(s0, run).value) && Keeps(s0, run, e.w)
    ensures e.w < |After(s0, run + [e]).value.workers| && Keeps(s0, run + [e], e.w)
  {
    var s := After(s0, run).value;
    assert Enabled(s, e) && After(s0, run + [e]) == Some(Step(s, e)) by {
      assert (run + [e])[..|run + [e]| - 1] == run;
    }
    LastMoves(s0, run, e);
    ClientMoves(s0, run, e);
    ReadMoves(s, e);
    hide Inv, Step, Enabled, After, LastRead, LastVersion, ClientReads, ClientOps;
    if e.Begin? || e.ReadBody? || e.AddInsert? || e.AddWrite? {
      SetsGrow(s, e);
    } else {
      SetsStay(s, e);
    }
  }

  /** How one step moves the serial order. */
  lemma OrderMoves(s: State, e: Event)
    requires Inv(s) && Enabled(s, e)
    ensures e.w < |s.workers|
    ensures var k, o, o' := s.workers[e.w], s.order, Step(s, e).order;
            if e.LoadEpoch? then !Resting(k.phase) && o' == o + [Entry(e.w, Pending, k.rset, k.wset, ZERO, s.ge)]
            else if e.Commit? then
              && k.pos < |o| && o[k.pos].w == e.w && o[k.pos].status.Pending?
                  && (forall q :: k.pos < q < |o| ==> o[q].w != e.w)
              && |o'| == |o| && o' == o[k.pos := o'[k.pos]]
              && IsTx(o'[k.pos], Tx(e.w, o[k.pos].rset, o[k.pos].wset, true))
            else
              |o'| == |o| && forall p :: 0 <= p < |o| ==>
                o'[p].w == o[p].w && o'[p].rset == o[p].rset && o'[p].wset == o[p].wset
                    && (o'[p].status.Committed? <==> o[p].status.Committed?)
  {
    assert WInv(s, e.w);
  }

  lemma TraceStep(s0: State, run: seq<Event>, e: Event)
    requires Initial(s0) && After(s0, run).Some? && After(s0, run + [e]).Some? && Inv(After(s0, run).value)
    requires AreTxs(After(s0, run).value.order, Trace(s0, run))
    requires forall w :: 0 <= w < |After(s0, run).value.workers| ==> Keeps(s0, run, w)
    ensures AreTxs(After(s0, run + [e]).value.order, Trace(s0, run + [e]))
  {
    var s, txs := After(s0, run).value, Trace(s0, run);
    assert (run + [e])[..|run + [e]| - 1] == run;
    assert Enabled(s, e) && After(s0, run + [e]) == Some(Step(s, e));
    OrderMoves(s, e);
    assert Keeps(s0, run, e.w);
    hide Initial, Inv, Step, Enabled, After, ClientReads, ClientOps;
    if e.Commit? {
      var p, q := s.workers[e.w].pos, LastOf(txs, e.w);
      assert IsTx(s.order[p], txs[p]);
      assert q >= 0 ==> IsTx(s.order[q], txs[q]);
      assert p == q;
    }
  }

  /**
    The sets the protocol keeps are those of the events, for every worker and every transaction of the serial
    order.
   */
  lemma {:induction false} TraceIs(s0: State, run: seq<Event>)
    requires Initial(s0) && After(s0, run).Some?
    ensures AreTxs(After(s0, run).value.order, Trace(s0, run))
    ensures forall w :: 0 <= w < |After(s0, run).value.workers| ==> Keeps(s0, run, w)
  {
    if run != [] {
      var rest, e := run[..|run| - 1], run[|run| - 1];
      assert run == rest + [e];
      TraceIs(s0, rest);
      Always(s0, rest);
      InitKept(s0, rest);
      InitKept(s0, run);
      TraceStep(s0, rest, e);
      forall w | 0 <= w < |After(s0, run).value.workers| ensures Keeps(s0, run, w) {
        if w == e.w { KeepsOwn(s0, rest, e); } else { KeepsOther(s0, rest, e, w); }
      }
    }
  }

  // ---------------------------------------------------------------- the theorems, in the clients' terms

  /** The reference: the committed ones among the first `n` transactions of the trace, run one at a time. */
  function SerialOf(init: map<Rid, Val>, txs: seq<Tx>, n: nat): map<Rid, Val>
    requires n <= |txs|
  {
    if n == 0 then init
    else
      var before := SerialOf(init, txs, n - 1);
      if txs[n - 1].committed then ApplyWrites(before, txs[n - 1].ops) else before
  }

  lemma {:induction false} SerialIs(init: map<Rid, Val>, order: seq<Entry>, txs: seq<Tx>, n: nat)
    requires AreTxs(order, txs) && n <= |order|
    ensures SerialOf(init, txs, n) == RunSerial(init, order, n)
  {
    if n > 0 {
      SerialIs(init, order, txs, n - 1);
      assert IsTx(order[n - 1], txs[n - 1]);
    }
  }

  /**
    Serializability, in the clients' terms.  In every run, each read of a committed transaction returned what
    the map holds after the operations of the committed transactions that loaded their epoch earlier, one
    transaction at a time; and what an insert reserved was not there.
   */
  lemma ClientSerializable(s0: State, run: seq<Event>, p: nat, i: nat)
    requires Initial(s0) && After(s0, run).Some?
    requires p < |Trace(s0, run)| && Trace(s0, run)[p].committed && i < |Trace(s0, run)[p].seen|
    ensures var txs := Trace(s0, run);
            txs[p].seen[i].val == Lookup(SerialOf(s0.init, txs, p), txs[p].seen[i].r)
  {
    TraceIs(s0, run);
    var order, txs := After(s0, run).value.order, Trace(s0, run);
    assert IsTx(order[p], txs[p]);
    Serializable(s0, run, p, i);
    SerialIs(s0.init, order, txs, p);
  }

  /** Every unlocked record shows the operations of all committed transactions, one transaction at a time. */
  lemma ClientRecords(s0: State, run: seq<Event>, r: Rid)
    requires Initial(s0) && After(s0, run).Some?
    requires r in After(s0, run).value.recs && !After(s0, run).value.recs[r].lock
    ensures Present(After(s0, run).value.recs[r]) == Lookup(SerialOf(s0.init, Trace(s0, run), |Trace(s0, run)|), r)
  {
    TraceIs(s0, run);
    RecordsAreSerial(s0, run, r);
    SerialIs(s0.init, After(s0, run).value.order, Trace(s0, run), |Trace(s0, run)|);
  }

  // ---------------------------------------------------------------- event by event

  lemma {:induction false} PrefixRuns(s0: State, run: seq<Event>, n: nat)
    requires After(s0, run).Some? && n <= |run|
    ensures After(s0, run[..n]).Some?
  {
    if n < |run| {
      PrefixRuns(s0, run[..|run| - 1], n);
      assert run[..|run| - 1][..n] == run[..n];
    } else {
      assert run[..n] == run;
    }
  }

  /** Event `m` belongs to the transaction of worker `w` under way at the end of the run. */
  ghost predicate Since(run: seq<Event>, w: nat, m: nat) {
    m < |run| && run[m].w == w && !run[m].Begin? && forall j :: m < j < |run| ==> run[j] != Begin(w)
  }

  /** Event `m`, of the transaction under way, yields `x`. */
  ghost predicate Read(s0: State, run: seq<Event>, w: nat, m: nat, x: RElem) {
    Since(run, w, m) && After(s0, run[..m]).Some? && Yield(s0, run[..m], run[m]) == Some(x)
  }

  /** Event `m`, of the transaction under way, asks for `x`. */
  ghost predicate Asked(run: seq<Event>, w: nat, m: nat, x: WElem) { Since(run, w, m) && Ask(run[m]) == Some(x) }

  lemma SinceLater(run: seq<Event>, e: Event, w: nat, m: nat)
    ensures Since(run + [e], w, m) <==> if m == |run| then e.w == w && !e.Begin? else e != Begin(w) && Since(run, w, m)
  {
    assert (run + [e])[|run|] == e;
    assert forall j :: 0 <= j < |run| ==> (run + [e])[j] == run[j];
  }

  lemma ReadLater(s0: State, run: seq<Event>, e: Event, w: nat, m: nat, x: RElem)
    requires After(s0, run).Some?
    ensures Read(s0, run + [e], w, m, x) <==>
              if m == |run| then e.w == w && !e.Begin? && Yield(s0, run, e) == Some(x)
              else e != Begin(w) && Read(s0, run, w, m, x)
  {
    hide After, Yield;
    SinceLater(run, e, w, m);
    if m <= |run| {
      assert (run + [e])[..m] == run[..m] && run[..|run|] == run;
    }
  }

  /** The reads of a worker's transaction are what its body loads and inserts yielded, those and no others. */
  lemma {:induction false} ReadsAreEvents(s0: State, run: seq<Event>, w: nat, x: RElem)
    requires After(s0, run).Some?
    ensures x in ClientReads(s0, run, w) <==> exists m :: Read(s0, run, w, m, x)
  {
    if run != [] {
      var rest, e := run[..|run| - 1], run[|run| - 1];
      assert run == rest + [e];
      ReadsAreEvents(s0, rest, w, x);
      hide After, Yield, Read;
      forall m: nat
        ensures Read(s0, run, w, m, x) <==>
                  if m == |rest| then e.w == w && !e.Begin? && Yield(s0, rest, e) == Some(x)
                  else e != Begin(w) && Read(s0, rest, w, m, x)
      {
        ReadLater(s0, rest, e, w, m, x);
      }
      assert Read(s0, run, w, |rest|, x) ==> exists m :: Read(s0, run, w, m, x);
    }
  }

  /** The same for what it wrote, inserted and deleted. */
  lemma {:induction false} OpsAreEvents(run: seq<Event>, w: nat, x: WElem)
    ensures x in ClientOps(run, w) <==> exists m :: Asked(run, w, m, x)
  {
    if run != [] {
      var rest, e := run[..|run| - 1], run[|run| - 1];
      assert run == rest + [e];
      OpsAreEvents(rest, w, x);
      hide Ask;
      forall m: nat
        ensures Asked(run, w, m, x) <==>
                  if m == |rest| then e.w == w && !e.Begin? && Ask(e) == Some(x)
                  else e != Begin(w) && Asked(rest, w, m, x)
      {
        SinceLater(rest, e, w, m);
      }
      assert Asked(run, w, |rest|, x) ==> exists m :: Asked(run, w, m, x);
    }
  }

  /**
    Every entry of the serial order is a transaction that some worker asked for: its reads and its writes
    are those of the worker's events between its Begin and the epoch load that made the entry.
   */
  lemma {:induction false} EntryIsAsked(s0: State, run: seq<Event>, p: nat) returns (n: nat)
    requires Initial(s0) && After(s0, run).Some? && p < |After(s0, run).value.order|
    ensures n < |run| && After(s0, run[..n]).Some? && |After(s0, run[..n]).value.order| == p
    ensures var e := After(s0, run).value.order[p];
            run[n] == LoadEpoch(e.w) && e.rset == ClientReads(s0, run[..n], e.w) && e.wset == ClientOps(run[..n], e.w)
  {
    var rest, e := run[..|run| - 1], run[|run| - 1];
    TraceIs(s0, rest);
    TraceIs(s0, run);
    Always(s0, rest);
    var s := After(s0, rest).value;
    OrderMoves(s, e);
    if p < |s.order| {
      n := EntryIsAsked(s0, rest, p);
      assert rest[..n] == run[..n];
      assert IsTx(s.order[p], Trace(s0, rest)[p]) && IsTx(After(s0, run).value.order[p], Trace(s0, run)[p]);
    } else {
      n := |rest|;
      assert run[..n] == rest;
      assert Keeps(s0, rest, e.w);
    }
  }
}
