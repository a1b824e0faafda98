/**
  The worker's side of the pipeline: taking a buffer, publishing, pushing, raising CTIDW.
 */
module PipeBuffers {
  import opened Base
  import opened Silo
  import opened SiloInv
  import opened SiloEpoch
  import opened Pipeline
  import opened PipeInv
  import opened PipeWork
  import opened PipeStep

  type State = PipeInv.State

  /** Only worker `w`'s side of the pipeline moves, and its bounds with it. */
  ghost predicate SideStep(j: State, j': State, w: nat) {
    && WellFormed(j) && WellFormed(j') && w < |j.wp| == |j'.wp|
    && j'.s == j.s && j'.loggerOf == j.loggerOf && j'.dur == j.dur && j'.pepoch == j.pepoch
    && j'.notified == j.notified && |j'.lg| == |j.lg|
    && (forall u :: 0 <= u < |j.wp| && u != w ==> j'.wp[u] == j.wp[u])
    && (forall m {:trigger Future(j', w, m)} :: Future(j, w, m) ==> Future(j', w, m))
    && Top(j, w) <= Top(j', w)
  }

  lemma SideAllFuture(j: State, j': State, w: nat, l: nat, n: nat, m: nat)
    requires SideStep(j, j', w) && AllFuture(j, l, n, m)
    ensures AllFuture(j', l, n, m)
  {
    forall u | 0 <= u < n && u < |j.wp| && j.loggerOf[u] == l ensures Future(j', u, m) {
      assert Future(j, u, m);
    }
  }

  lemma SideMin(j: State, j': State, w: nat, l: nat)
    requires SideStep(j, j', w) && l < |j.lg| && PMin(j, l) && j'.lg[l].phase == j.lg[l].phase
          && j'.lg[l].tld == j.lg[l].tld
    requires Carries(j.lg[l].phase) ==> QueueFrom(j'.lg[l], j.lg[l].phase.min)
    ensures PMin(j', l)
  {
    var g := j.lg[l];
    SideAllFuture(j, j', w, l, |j.wp|, g.tld + 1);
    if g.phase.LScan? {
      if g.phase.min != 0 { SideAllFuture(j, j', w, l, g.phase.k, g.phase.min); }
    } else if g.phase.LQueue? || Carries(g.phase) {
      SideAllFuture(j, j', w, l, |j.wp|, g.phase.min);
    }
  }

  lemma SideQueue(j: State, j': State, w: nat, l: nat)
    requires SideStep(j, j', w) && l < |j.lg| && PQueue(j, l) && j'.lg[l] == j.lg[l]
    ensures PQueue(j', l)
  {
    var g := j.lg[l];
    forall k, i | k in g.queue && 0 <= i < |g.queue[k]|
        ensures BufOk(j', l, g.queue[k][i]) && k <= Top(j', g.queue[k][i].w) {
      assert BufOk(j, l, g.queue[k][i]);
    }
    forall i | 0 <= i < |Batch(g)| ensures BufOk(j', l, Batch(g)[i]) {
      assert BufOk(j, l, Batch(g)[i]);
    }
  }

  /** Steps that leave the loggers alone. */
  lemma SideKeeps(j: State, j': State, w: nat)
    requires PInv(j) && SideStep(j, j', w) && j'.lg == j.lg
    requires PWork(j', w) && PLog(j', w) && PIds(j', w)
    ensures PInv(j')
  {
    forall u | 0 <= u < |j'.wp| ensures PWork(j', u) && PLog(j', u) && PIds(j', u) {
      if u != w {
        assert PWork(j, u) && PLog(j, u) && PIds(j, u);
      }
    }
    forall l | 0 <= l < |j'.lg| ensures PQueue(j', l) && PMin(j', l) && PDur(j', l) {
      assert PQueue(j, l) && PMin(j, l) && PDur(j, l);
      SideQueue(j, j', w, l);
      SideMin(j, j', w, l);
    }
  }

  lemma LastMoves(pool: seq<nat>)
    requires pool != []
    ensures multiset(pool[..|pool| - 1]) + multiset{pool[|pool| - 1]} == multiset(pool) + multiset{}
  {
    assert pool == pool[..|pool| - 1] + [pool[|pool| - 1]];
  }

  lemma ReadyIds(j: State, w: nat)
    requires WellFormed(j) && w < |j.wp| && j.wp[w].cur.None? && j.wp[w].pool != [] && PIds(j, w)
    ensures PIds(StepReady(j, w), w)
  {
    hide IdsOf, FlattenTo, InTransit, AllIds;
    LastMoves(j.wp[w].pool);
  }

  lemma ReadyParts(j: State, w: nat)
    requires WellFormed(j) && w < |j.wp| && j.wp[w].cur.None? && j.wp[w].pool != []
    requires PWork(j, w) && PLog(j, w)
    ensures var j' := StepReady(j, w); SideStep(j, j', w) && PWork(j', w) && PLog(j', w)
  {
    hide RecsOf, FlattenTo, WorkerLog;
    assert CurRecs(StepReady(j, w).wp[w]) == CurRecs(j.wp[w]);
  }

  lemma ReadyKeeps(j: State, w: nat)
    requires PInv(j) && w < |j.wp| && j.wp[w].cur.None? && j.wp[w].pool != []
    ensures PInv(StepReady(j, w))
  {
    assert PWork(j, w) && PLog(j, w) && PIds(j, w);
    ReadyParts(j, w);
    ReadyIds(j, w);
    SideKeeps(j, StepReady(j, w), w);
  }

  /** With nothing older in the buffer, CTIDW may be raised. */
  lemma RaiseKeeps(j: State, w: nat)
    requires PInv(j) && w < |j.wp| && j.s.workers[w].phase.Idle? && j.s.workers[w].local != 0
    requires !HoldsOlder(j.wp[w], j.s.workers[w].local)
    ensures PInv(StepRaise(j, w))
  {
    assert PWork(j, w) && PLog(j, w) && PIds(j, w);
    SideKeeps(j, StepRaise(j, w), w);
  }

  // ---------------------------------------------------------------- push

  lemma PushEpochs(j: State, w: nat)
    requires PInv(j) && w < |j.wp| && EnPush(j, w)
    ensures var k, b := j.s.workers[w], j.wp[w].cur.value;
            && k.mrc.epoch == k.epoch == k.local && NidOk(j.s.order, Nid(k.pos, k.mrc.epoch))
            && (b.recs != [] ==> b.epoch == k.mrc.epoch)
  {
    assert PWork(j, w) && WInv(j.s, w);
    assert OInv(j.s, j.s.workers[w].pos);
  }

  lemma PushBuffer(j: State, w: nat)
    requires WellFormed(j) && w < |j.wp| && EnPush(j, w) && PWork(j, w)
    requires var k, b := j.s.workers[w], j.wp[w].cur.value;
             && k.mrc.epoch == k.epoch == k.local && NidOk(j.s.order, Nid(k.pos, k.mrc.epoch))
             && (b.recs != [] ==> b.epoch == k.mrc.epoch)
    ensures var b' := Pushed(j.wp[w].cur.value, j.s.workers[w]); OneEpoch(b') && NidsOk(j.s.order, b'.nids)
  {
    var k, b := j.s.workers[w], j.wp[w].cur.value;
    var b' := Pushed(b, k);
    forall i | 0 <= i < |b'.nids| ensures NidOk(j.s.order, b'.nids[i]) {
      if i < |b.nids| {
        assert NidOk(j.s.order, b.nids[i]);
      }
    }
  }

  lemma PushWorker(j: State, w: nat)
    requires PInv(j) && w < |j.wp| && EnPush(j, w)
    ensures SideStep(j, StepPush(j, w), w) && PWork(StepPush(j, w), w)
  {
    PushEpochs(j, w);
    assert PWork(j, w);
    PushBuffer(j, w);
    hide PInv, OneEpoch, NidsOk;
  }

  /** The pushed transaction is the end of the worker's log. */
  lemma PushedLog(s: Silo.State, w: nat)
    requires w < |s.workers| && s.workers[w].phase.Logging? && WEntry(s, w)
    ensures var k := s.workers[w];
            k.pos < |s.order| && WorkerLog(s.order, |s.order|, w) == WorkerLog(s.order, k.pos, w) + LogOf(k.wset, k.mrc)
  {
    LogTail(s.order, s.workers[w].pos + 1, |s.order|, w);
  }

  lemma PushLog(j: State, w: nat)
    requires WellFormed(j) && w < |j.wp| && EnPush(j, w) && WEntry(j.s, w) && PLog(j, w) && PIds(j, w)
    ensures PLog(StepPush(j, w), w) && PIds(StepPush(j, w), w)
  {
    hide RecsOf, IdsOf, FlattenTo, WorkerLog;
    var k, g := j.s.workers[w], j.lg[j.loggerOf[w]];
    PushedLog(j.s, w);
    assert CurRecs(StepPush(j, w).wp[w]) == CurRecs(j.wp[w]) + LogOf(k.wset, k.mrc);
    var before := RecsOf(g.file, w) + RecsOf(InTransit(g, j.s.ge), w);
    assert before + (CurRecs(j.wp[w]) + LogOf(k.wset, k.mrc)) == (before + CurRecs(j.wp[w])) + LogOf(k.wset, k.mrc);
  }

  lemma PushKeeps(j: State, w: nat)
    requires PInv(j) && w < |j.wp| && EnPush(j, w)
    ensures PInv(StepPush(j, w))
  {
    PushWorker(j, w);
    assert PLog(j, w) && PIds(j, w) && WInv(j.s, w);
    PushLog(j, w);
    SideKeeps(j, StepPush(j, w), w);
  }

  // ---------------------------------------------------------------- publish

  ghost predicate Publishes(j: State, w: nat) {
    PInv(j) && w < |j.wp| && EnPublish(j, w)
  }

  lemma PublishFacts(j: State, w: nat)
    requires Publishes(j, w)
    ensures var b, g := j.wp[w].cur.value, j.lg[j.loggerOf[w]];
            && b.w == w && b.recs != [] && g.tld < b.epoch <= j.s.ge && b.epoch <= j.s.workers[w].local
            && BufOk(j, j.loggerOf[w], b) && Newest(g.queue, b)
            && (Carries(g.phase) ==> g.phase.min <= b.epoch)
  {
    var l := j.loggerOf[w];
    assert PWork(j, w) && PQueue(j, l) && PMin(j, l) && LagInv(j.s, w);
    assert Future(j, w, j.lg[l].tld + 1);
  }

  lemma PublishSide(j: State, w: nat)
    requires Publishes(j, w)
    ensures SideStep(j, StepPublish(j, w), w) && PWork(StepPublish(j, w), w)
  {
    PublishFacts(j, w);
    assert PWork(j, w);
  }

  /** The records move from the current buffer to the end of the queue. */
  lemma PublishTransit(g: Logger, b: Buffer, ge: nat, u: nat)
    requires b.epoch <= ge && Newest(g.queue, b)
    ensures var g' := g.(queue := Enq(g.queue, b));
            && RecsOf(InTransit(g', ge), u) == RecsOf(InTransit(g, ge), u) + (if u == b.w then b.recs else [])
            && IdsOf(InTransit(g', ge), u) == IdsOf(InTransit(g, ge), u) + (if u == b.w then multiset{b.id}
                else multiset{})
  {
    hide RecsOf, IdsOf, FlattenTo;
    var g' := g.(queue := Enq(g.queue, b));
    EnqFlatten(g.queue, b, ge + 1, u);
    RecsConcat(Batch(g), FlattenTo(g.queue, ge + 1), u);
    RecsConcat(Batch(g'), FlattenTo(g'.queue, ge + 1), u);
  }

  /** What publishing does to the logger and the worker. */
  lemma PublishIs(j: State, w: nat, u: nat)
    requires WellFormed(j) && w < |j.wp| && u < |j.wp| && j.wp[w].cur.Some?
    ensures var j', l, b := StepPublish(j, w), j.loggerOf[w], j.wp[w].cur.value;
            && j'.s == j.s && j'.loggerOf == j.loggerOf && WellFormed(j') && |j'.wp| == |j.wp|
            && j'.lg[j.loggerOf[u]] == (if j.loggerOf[u] == l then j.lg[l].(queue := Enq(j.lg[l].queue, b))
                else j.lg[j.loggerOf[u]])
            && j'.wp[u] == if u == w then j.wp[w].(cur := None) else j.wp[u]
  {
    hide Enq;
  }

  lemma Regroup(a: seq<LogRec>, b: seq<LogRec>, c: seq<LogRec>, d: seq<LogRec>)
    ensures a + b + (c + d) == a + (b + c) + d
  {
  }

  lemma {:induction false} PublishRecs(j: State, w: nat, u: nat)
    requires WellFormed(j) && w < |j.wp| && u < |j.wp| && j.wp[w].cur.Some? && PLog(j, u)
    requires var b := j.wp[w].cur.value; b.w == w && b.epoch <= j.s.ge && Newest(j.lg[j.loggerOf[w]].queue, b)
    ensures PLog(StepPublish(j, w), u)
  {
    PublishIs(j, w, u);
    var j', g, b := StepPublish(j, w), j.lg[j.loggerOf[w]], j.wp[w].cur.value;
    if j.loggerOf[u] == j.loggerOf[w] {
      PublishTransit(g, b, j.s.ge, u);
      hide RecsOf, IdsOf, FlattenTo, WorkerLog, InTransit, Enq, StepPublish, Newest, LoggedTo;
      var moved := if u == w then b.recs else [];
      assert CurRecs(j.wp[u]) == moved + CurRecs(j'.wp[u]);
      Regroup(RecsOf(g.file, u), RecsOf(InTransit(g, j.s.ge), u), moved, CurRecs(j'.wp[u]));
    }
  }

  lemma {:induction false} PublishIds(j: State, w: nat, u: nat)
    requires WellFormed(j) && w < |j.wp| && u < |j.wp| && j.wp[w].cur.Some? && PIds(j, u)
    requires var b := j.wp[w].cur.value; b.w == w && b.epoch <= j.s.ge && Newest(j.lg[j.loggerOf[w]].queue, b)
    ensures PIds(StepPublish(j, w), u)
  {
    PublishIs(j, w, u);
    var g, b := j.lg[j.loggerOf[w]], j.wp[w].cur.value;
    if j.loggerOf[u] == j.loggerOf[w] {
      PublishTransit(g, b, j.s.ge, u);
      hide RecsOf, IdsOf, FlattenTo, InTransit, Enq, StepPublish, Newest, AllIds;
    }
  }

  lemma PublishQueue(j: State, w: nat)
    requires Publishes(j, w)
    ensures PQueue(StepPublish(j, w), j.loggerOf[w])
  {
    var j', l, b := StepPublish(j, w), j.loggerOf[w], j.wp[w].cur.value;
    PublishFacts(j, w);
    PublishSide(j, w);
    assert PQueue(j, l);
    var q, q' := j.lg[l].queue, j'.lg[l].queue;
    forall e, i | e in q' && 0 <= i < |q'[e]|
      ensures BufOk(j', l, q'[e][i]) && q'[e][i].epoch == e && e <= Top(j', q'[e][i].w)
    {
      if e in q && i < |q[e]| {
        assert q'[e][i] == q[e][i] && BufOk(j, l, q[e][i]);
      } else {
        assert q'[e][i] == b;
      }
    }
    assert Batch(j'.lg[l]) == Batch(j.lg[l]);
    forall i | 0 <= i < |Batch(j.lg[l])| ensures BufOk(j', l, Batch(j.lg[l])[i]) {
      assert BufOk(j, l, Batch(j.lg[l])[i]);
    }
  }

  lemma PublishMin(j: State, w: nat, l: nat)
    requires Publishes(j, w) && l < |j.lg|
    ensures PMin(StepPublish(j, w), l) && PDur(StepPublish(j, w), l)
  {
    PublishFacts(j, w);
    PublishSide(j, w);
    assert PMin(j, l) && PDur(j, l);
    assert Batch(StepPublish(j, w).lg[l]) == Batch(j.lg[l]);
    SideMin(j, StepPublish(j, w), w, l);
  }

  lemma PublishKeeps(j: State, w: nat)
    requires Publishes(j, w)
    ensures PInv(StepPublish(j, w))
  {
    var j' := StepPublish(j, w);
    PublishFacts(j, w);
    PublishSide(j, w);
    forall u | 0 <= u < |j'.wp| ensures PWork(j', u) && PLog(j', u) && PIds(j', u) {
      assert PWork(j, u) && PLog(j, u) && PIds(j, u);
      PublishRecs(j, w, u);
      PublishIds(j, w, u);
    }
    forall l | 0 <= l < |j'.lg| ensures PQueue(j', l) && PMin(j', l) && PDur(j', l) {
      assert PQueue(j, l);
      if l == j.loggerOf[w] {
        PublishQueue(j, w);
      } else {
        SideQueue(j, j', w, l);
      }
      PublishMin(j, w, l);
    }
  }
}
