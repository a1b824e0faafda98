/**
  Every step of the pipeline keeps the invariant: protocol steps, and the worker's side of wal.
 */
module PipeStep {
  import opened Base
  import opened Silo
  import opened SiloInv
  import opened SiloEpoch
  import opened SiloTheorems
  import P = Pipeline
  import opened Pipeline
  import opened PipeInv
  import opened PipeWork

  type State = PipeInv.State

  // ---------------------------------------------------------------- sequences of buffers

  lemma {:induction false} RecsSplit(a: seq<Buffer>, b: seq<Buffer>, w: nat)
    ensures RecsOf(a + b, w) == RecsOf(a, w) + RecsOf(b, w)
  {
    if b == [] {
      assert a + b == a;
    } else {
      RecsSplit(a, b[..|b| - 1], w);
      assert (a + b)[..|a + b| - 1] == a + b[..|b| - 1];
      assert (a + b)[|a + b| - 1] == b[|b| - 1];
    }
  }

  lemma {:induction false} IdsSplit(a: seq<Buffer>, b: seq<Buffer>, w: nat)
    ensures IdsOf(a + b, w) == IdsOf(a, w) + IdsOf(b, w)
  {
    if b == [] {
      assert a + b == a;
    } else {
      hide IdOf, RecsOf;
      IdsSplit(a, b[..|b| - 1], w);
      assert (a + b)[..|a + b| - 1] == a + b[..|b| - 1];
      assert (a + b)[|a + b| - 1] == b[|b| - 1];
    }
  }

  lemma RecsConcat(a: seq<Buffer>, b: seq<Buffer>, w: nat)
    ensures RecsOf(a + b, w) == RecsOf(a, w) + RecsOf(b, w)
    ensures IdsOf(a + b, w) == IdsOf(a, w) + IdsOf(b, w)
  {
    RecsSplit(a, b, w);
    IdsSplit(a, b, w);
  }

  lemma RecsOne(b: Buffer, w: nat)
    ensures RecsOf([b], w) == (if b.w == w then b.recs else [])
    ensures IdsOf([b], w) == (if b.w == w then multiset{b.id} else multiset{})
  {
    assert [b][..0] == [];
  }

  lemma {:induction false} RecsNone(a: seq<Buffer>, w: nat)
    requires forall i :: 0 <= i < |a| ==> a[i].w != w
    ensures RecsOf(a, w) == [] && IdsOf(a, w) == multiset{}
  {
    if a != [] {
      RecsNone(a[..|a| - 1], w);
    }
  }

  lemma {:induction false} FlattenSame(q: map<nat, seq<Buffer>>, n: nat, m: nat)
    requires n <= m && forall e :: e in q ==> e < n
    ensures FlattenTo(q, m) == FlattenTo(q, n)
  {
    if n < m {
      FlattenSame(q, n, m - 1);
    }
  }

  lemma {:induction false} FlattenMember(q: map<nat, seq<Buffer>>, n: nat, i: nat) returns (e: nat, k: nat)
    requires i < |FlattenTo(q, n)|
    ensures e < n && e in q && k < |q[e]| && q[e][k] == FlattenTo(q, n)[i]
  {
    if i < |FlattenTo(q, n - 1)| {
      e, k := FlattenMember(q, n - 1, i);
    } else {
      e, k := n - 1, i - |FlattenTo(q, n - 1)|;
    }
  }

  function At(q: map<nat, seq<Buffer>>, e: nat): seq<Buffer> { if e in q then q[e] else [] }

  function Concat(f: nat -> seq<LogRec>, n: nat): seq<LogRec> { if n == 0 then [] else Concat(f, n - 1) + f(n - 1) }
  function Sum(f: nat -> multiset<nat>, n: nat): multiset<nat> {
    if n == 0 then multiset{} else Sum(f, n - 1) + f(n - 1)
  }

  /** Worker `w`'s records and buffer ids queued under an epoch. */
  function RecsAt(q: map<nat, seq<Buffer>>, w: nat): nat -> seq<LogRec> { (e: nat) => RecsOf(At(q, e), w) }
  function IdsAt(q: map<nat, seq<Buffer>>, w: nat): nat -> multiset<nat> { (e: nat) => IdsOf(At(q, e), w) }

  lemma {:induction false} FlattenQueue(q: map<nat, seq<Buffer>>, n: nat, w: nat)
    ensures RecsOf(FlattenTo(q, n), w) == Concat(RecsAt(q, w), n)
    ensures IdsOf(FlattenTo(q, n), w) == Sum(IdsAt(q, w), n)
  {
    if n > 0 {
      FlattenQueue(q, n - 1, w);
      RecsConcat(FlattenTo(q, n - 1), At(q, n - 1), w);
    }
  }

  /** Appending under the last nonempty index appends to the whole. */
  lemma {:induction false} ConcatGrows(f: nat -> seq<LogRec>, f': nat -> seq<LogRec>, at: nat, x: seq<LogRec>, n: nat)
    requires forall e: nat :: f'(e) == if e == at then f(e) + x else f(e)
    requires x != [] ==> forall e: nat :: e > at ==> f(e) == []
    ensures Concat(f', n) == Concat(f, n) + (if at < n then x else [])
  {
    if n > 0 {
      ConcatGrows(f, f', at, x, n - 1);
    }
  }

  lemma {:induction false} SumGrows(f: nat -> multiset<nat>, f': nat -> multiset<nat>, at: nat, x: multiset<nat>,
                                    n: nat)
    requires forall e: nat :: f'(e) == if e == at then f(e) + x else f(e)
    ensures Sum(f', n) == Sum(f, n) + (if at < n then x else multiset{})
  {
    if n > 0 {
      SumGrows(f, f', at, x, n - 1);
    }
  }

  /** No buffer of `b`'s worker is queued under a later epoch. */
  ghost predicate Newest(q: map<nat, seq<Buffer>>, b: Buffer) {
    forall e, i :: e in q && 0 <= i < |q[e]| && q[e][i].w == b.w ==> e <= b.epoch
  }

  lemma EnqAt(q: map<nat, seq<Buffer>>, b: Buffer, e: nat, w: nat)
    ensures RecsOf(At(Enq(q, b), e), w)
          == if e == b.epoch then RecsOf(At(q, e), w) + (if b.w == w then b.recs else []) else RecsOf(At(q, e), w)
    ensures IdsOf(At(Enq(q, b), e), w)
          == if e == b.epoch then IdsOf(At(q, e), w) + (if b.w == w then multiset{b.id} else multiset{})
              else IdsOf(At(q, e), w)
  {
    if e == b.epoch {
      assert At(Enq(q, b), e) == At(q, e) + [b];
      RecsConcat(At(q, e), [b], w);
      RecsOne(b, w);
    } else {
      assert At(Enq(q, b), e) == At(q, e);
    }
  }

  lemma NothingNewer(q: map<nat, seq<Buffer>>, b: Buffer, e: nat)
    requires Newest(q, b) && e > b.epoch
    ensures RecsOf(At(q, e), b.w) == []
  {
    RecsNone(At(q, e), b.w);
  }

  /** Enqueueing a buffer appends to its worker's records and touches nobody else's. */
  lemma EnqFlatten(q: map<nat, seq<Buffer>>, b: Buffer, n: nat, w: nat)
    requires Newest(q, b)
    ensures RecsOf(FlattenTo(Enq(q, b), n), w) == RecsOf(FlattenTo(q, n), w) + (if b.w == w && b.epoch < n then b.recs
          else [])
    ensures IdsOf(FlattenTo(Enq(q, b), n), w) == IdsOf(FlattenTo(q, n), w)
          + (if b.w == w && b.epoch < n then multiset{b.id} else multiset{})
  {
    FlattenQueue(q, n, w);
    FlattenQueue(Enq(q, b), n, w);
    var x := if b.w == w then b.recs else [];
    forall e: nat ensures RecsAt(Enq(q, b), w)(e) == if e == b.epoch then RecsAt(q, w)(e) + x else RecsAt(q, w)(e) {
      EnqAt(q, b, e, w);
    }
    forall e: nat | e > b.epoch && x != [] ensures RecsAt(q, w)(e) == [] {
      NothingNewer(q, b, e);
    }
    ConcatGrows(RecsAt(q, w), RecsAt(Enq(q, b), w), b.epoch, x, n);
    var y := if b.w == w then multiset{b.id} else multiset{};
    forall e: nat ensures IdsAt(Enq(q, b), w)(e) == if e == b.epoch then IdsAt(q, w)(e) + y else IdsAt(q, w)(e) {
      EnqAt(q, b, e, w);
    }
    SumGrows(IdsAt(q, w), IdsAt(Enq(q, b), w), b.epoch, y, n);
  }

  // ---------------------------------------------------------------- steps of the protocol

  /** A protocol step of worker `w`, with or without the end of wal in it. */
  ghost predicate WorkStep(j: State, j': State, w: nat, logged: bool, begin: bool) {
    && WellFormed(j) && WellFormed(j') && w < |j.wp| == |j'.wp|
    && Moved(j.s, j'.s, w, logged, begin)
    && (forall u :: 0 <= u < |j.wp| ==> KeptFor(j.s, j'.s, u, j.wp[u].pushed, j'.wp[u].pushed))
    && j'.lg == j.lg && j'.loggerOf == j.loggerOf && j'.dur == j.dur && j'.pepoch == j.pepoch
        && j'.notified == j.notified
    && (forall u :: 0 <= u < |j.wp| && u != w ==> j'.wp[u] == j.wp[u])
    && (begin ==> j.wp[w].ctidw != 0)
    && (if logged then j.wp[w].pushed && j'.wp[w] == j.wp[w].(pushed := false, ctidw := j.s.workers[w].mrc.epoch)
        else j'.wp[w] == j.wp[w])
  }

  lemma WorkNids(j: State, j': State, w: nat, lo: bool, be: bool, ids: seq<Nid>)
    requires WorkStep(j, j', w, lo, be) && NidsOk(j.s.order, ids)
    ensures NidsOk(j'.s.order, ids)
  {
    forall i | 0 <= i < |ids| ensures NidOk(j'.s.order, ids[i]) {
      assert NidOk(j.s.order, ids[i]);
    }
  }

  lemma WorkFuture(j: State, j': State, w: nat, lo: bool, be: bool, u: nat, m: nat)
    requires WorkStep(j, j', w, lo, be) && u < |j.wp| && Future(j, u, m)
    ensures Future(j', u, m)
  {
    assert KeptFor(j.s, j'.s, u, j.wp[u].pushed, j'.wp[u].pushed);
  }

  lemma WorkAllFuture(j: State, j': State, w: nat, lo: bool, be: bool, l: nat, n: nat, m: nat)
    requires WorkStep(j, j', w, lo, be) && AllFuture(j, l, n, m)
    ensures AllFuture(j', l, n, m)
  {
    forall u | 0 <= u < n && u < |j.wp| && j.loggerOf[u] == l ensures Future(j', u, m) {
      WorkFuture(j, j', w, lo, be, u, m);
    }
  }

  lemma WorkWorker(j: State, j': State, w: nat, lo: bool, be: bool, u: nat)
    requires WorkStep(j, j', w, lo, be) && u < |j.wp| && PWork(j, u)
    ensures PWork(j', u)
  {
    if j.wp[u].cur.Some? {
      WorkNids(j, j', w, lo, be, j.wp[u].cur.value.nids);
    }
  }

  lemma WorkLog(j: State, j': State, u: nat)
    requires WellFormed(j) && WellFormed(j') && u < |j.wp| == |j'.wp| && j'.lg == j.lg && j'.loggerOf == j.loggerOf
    requires j'.wp[u].cur == j.wp[u].cur && j'.wp[u].pool == j.wp[u].pool && j.s.ge <= j'.s.ge
    requires LoggedTo(j'.s, u, j'.wp[u].pushed) <= |j'.s.order|
    requires LoggedTo(j.s, u, j.wp[u].pushed) <= |j.s.order|
    requires WorkerLog(j'.s.order, LoggedTo(j'.s, u, j'.wp[u].pushed), u)
          == WorkerLog(j.s.order, LoggedTo(j.s, u, j.wp[u].pushed), u)
    requires PLog(j, u) && PIds(j, u) && forall e :: e in j.lg[j.loggerOf[u]].queue ==> e <= j.s.ge
    ensures PLog(j', u) && PIds(j', u)
  {
    var g := j.lg[j.loggerOf[u]];
    FlattenSame(g.queue, j.s.ge + 1, j'.s.ge + 1);
    assert InTransit(g, j'.s.ge) == InTransit(g, j.s.ge);
  }

  lemma WorkBuf(j: State, j': State, w: nat, lo: bool, be: bool, l: nat, b: Buffer)
    requires WorkStep(j, j', w, lo, be) && BufOk(j, l, b)
    ensures BufOk(j', l, b) && Top(j, b.w) <= Top(j', b.w)
  {
    WorkNids(j, j', w, lo, be, b.nids);
  }

  lemma WorkQueue(j: State, j': State, w: nat, lo: bool, be: bool, l: nat)
    requires WorkStep(j, j', w, lo, be) && l < |j.lg| && PQueue(j, l)
    ensures PQueue(j', l)
  {
    var g := j.lg[l];
    WorkNids(j, j', w, lo, be, g.pending);
    forall k, i | k in g.queue && 0 <= i < |g.queue[k]|
        ensures BufOk(j', l, g.queue[k][i]) && k <= Top(j', g.queue[k][i].w) {
      WorkBuf(j, j', w, lo, be, l, g.queue[k][i]);
    }
    forall i | 0 <= i < |Batch(g)| ensures BufOk(j', l, Batch(g)[i]) {
      WorkBuf(j, j', w, lo, be, l, Batch(g)[i]);
    }
  }

  lemma WorkMin(j: State, j': State, w: nat, lo: bool, be: bool, l: nat)
    requires WorkStep(j, j', w, lo, be) && l < |j.lg| && PMin(j, l)
    requires lo ==> j.s.workers[w].mrc.epoch != 0
    ensures PMin(j', l)
  {
    var g := j.lg[l];
    WorkAllFuture(j, j', w, lo, be, l, |j.wp|, g.tld + 1);
    if g.phase.LScan? {
      if g.phase.min != 0 { WorkAllFuture(j, j', w, lo, be, l, g.phase.k, g.phase.min); }
    } else if g.phase.LQueue? || Carries(g.phase) {
      WorkAllFuture(j, j', w, lo, be, l, |j.wp|, g.phase.min);
    }
  }

  lemma WorkKeeps(j: State, j': State, w: nat, lo: bool, be: bool)
    requires PInv(j) && WorkStep(j, j', w, lo, be) && Inv(j'.s) && EpochInv(j'.s)
    requires lo ==> j.s.workers[w].mrc.epoch != 0
    ensures PInv(j')
  {
    WorkNids(j, j', w, lo, be, j.notified);
    forall u | 0 <= u < |j.wp| ensures PWork(j', u) && PLog(j', u) && PIds(j', u) {
      assert PWork(j, u) && PLog(j, u) && PIds(j, u) && PQueue(j, j.loggerOf[u]);
      WorkWorker(j, j', w, lo, be, u);
      assert KeptFor(j.s, j'.s, u, j.wp[u].pushed, j'.wp[u].pushed);
      WorkLog(j, j', u);
    }
    forall l | 0 <= l < |j.lg| ensures PQueue(j', l) && PMin(j', l) && PDur(j', l) {
      assert PQueue(j, l) && PMin(j, l) && PDur(j, l);
      WorkQueue(j, j', w, lo, be, l);
      WorkMin(j, j', w, lo, be, l);
    }
  }

  /** A protocol step, alone or as the end of wal, is a `WorkStep`. */
  lemma WorkIsStep(j: State, j': State, e: Silo.Event)
    requires PInv(j) && Silo.Enabled(j.s, e) && WellFormed(j') && |j'.wp| == |j.wp| && j'.s == Silo.Step(j.s, e)
    requires j'.lg == j.lg && j'.loggerOf == j.loggerOf && j'.dur == j.dur && j'.pepoch == j.pepoch
          && j'.notified == j.notified
    requires if e.Logged? then
               j.wp[e.w].pushed && j'.wp == j.wp[e.w := j.wp[e.w].(pushed := false,
                   ctidw := j.s.workers[e.w].mrc.epoch)]
             else j'.wp == j.wp && (e.Begin? ==> j.wp[e.w].ctidw != 0)
    ensures WorkStep(j, j', e.w, e.Logged?, e.Begin?)
  {
    StepMoves(j.s, e);
    forall u | 0 <= u < |j.wp| ensures KeptFor(j.s, j'.s, u, j.wp[u].pushed, j'.wp[u].pushed) {
      assert PWork(j, u) && PLog(j, u) && PWork(j, e.w);
      StepPhase(j.s, e);
      StepKept(j.s, e, u, j.wp[u].pushed);
    }
  }

  lemma ProtocolKeeps(g: Guards, j: State, e: P.Event)
    requires PInv(j) && P.Enabled(g, j, e) && (e.Work? || e.WalDone?)
    ensures PInv(P.Step(g, j, e))
  {
    var se := if e.Work? then e.e else Logged(e.w);
    var j' := P.Step(g, j, e);
    InvKeeps(j.s, se);
    EpochKeeps(j.s, se);
    WorkIsStep(j, j', se);
    if se.Logged? {
      assert WInv(j.s, se.w);
      assert OInv(j.s, j.s.workers[se.w].pos);
    }
    WorkKeeps(j, j', se.w, se.Logged?, se.Begin?);
  }
}
