/**
  Log files and shared loggers: with both orderings of the guards, a server writes every log file in
  epoch order in every run exactly if no two workers share a logger.
 */
module SharedLogger {
  import opened Base
  import opened Tid
  import opened Silo
  import P = Pipeline
  import opened Pipeline
  import opened PipeInv
  import opened PipeTheorems
  import opened PipeRuns
  import G = PipeGuards
  import L = LogFiles
  import C = LogChain
  import A = LogArchive
  import NR = NidRing
  import RF = RingFits

  type State = PipeInv.State

  const BOTH_GUARDS: Guards := Guards(true, true)

  lemma {:induction false} SomeMin(j: State, l: nat, u: nat, k: nat, min: nat)
    requires WellFormed(j) && u < |j.wp| && j.loggerOf[u] == l && j.wp[u].ctidw != 0 && (min != 0 || k <= u)
    ensures ScanMin(j, l, k, min) != 0
    decreases |j.wp| - k
  {
    if k < |j.wp| {
      var c := j.wp[k].ctidw;
      SomeMin(j, l, u, k + 1, if j.loggerOf[k] == l && c != 0 && (min == 0 || c < min) then c else min);
    }
  }

  lemma {:induction false} OnlyBuffer(b: Buffer, e: nat, n: nat)
    ensures FlattenTo(map[e := [b]], n) == if e < n then [b] else []
  {
    if n > 0 { OnlyBuffer(b, e, n - 1); }
  }

  // ---------------------------------------------------------------- two workers, two epochs

  /** Worker `w` has a buffer of epoch `e` to publish. */
  ghost predicate Loaded(j: State, w: nat, e: nat)
    requires w < |j.wp|
  {
    && j.wp[w].cur.Some?
    && var b := j.wp[w].cur.value;
       b.w == w && b.epoch == e && b.recs != [] && b.nids != [] && OneEpoch(b)
  }

  /** Logger `l` is at rest with nothing to write, and its workers have all stored CTIDW. */
  ghost predicate Ready(j: State, l: nat) {
    && WellFormed(j) && AllIdle(j) && j.s.ge >= 1 && l < |j.lg| && j.lg[l].phase.LIdle? && j.lg[l].queue == map[]
    && forall w :: 0 <= w < |j.wp| ==> j.wp[w].ctidw != 0
  }

  /** Worker `v` loads a buffer in the first epoch. */
  lemma LoadsOld(j0: State, m: State, v: nat) returns (t: State)
    requires Reach(BOTH_GUARDS, None, j0, m) && G.Awake(m) && v < |m.wp|
    ensures Reach(BOTH_GUARDS, None, j0, t) && t.s.ge == m.s.ge && t.loggerOf == m.loggerOf && |t.wp| == |m.wp|
          && t.lg == m.lg
    ensures WellFormed(t) && AllIdle(t) && t.s.ge >= 1 && Loaded(t, v, t.s.ge)
    ensures forall w :: 0 <= w < |t.wp| ==> t.wp[w].ctidw == t.s.workers[w].local == t.s.ge
    ensures forall w :: 0 <= w < |t.wp| && w != v ==>
          t.s.workers[w].mrc == ZERO && t.wp[w] == WPipe(t.s.ge, Some(EmptyBuffer(0, w)), FirstPool(), false)
  {
    hide Reach, Leads;
    var g := BOTH_GUARDS;
    Raises(g, m, |m.wp|);
    Join(g, None, j0, m, RaisedTo(m, |m.wp|));
    t := RaisedTo(m, |m.wp|);
    var r := G.FreshRid(t.s.recs.Keys);
    assert CanInsert(t, v, r);
    Inserts(g, t, v, r, "old");
    Join(g, None, j0, t, Inserted(t, v, r, "old"));
    t := Inserted(t, v, r, "old");
  }

  /** Worker `u` has loaded a buffer of the epoch after that of worker `v`'s. */
  ghost predicate BothLoaded(j: State, l: nat, u: nat, v: nat, e: nat) {
    && Ready(j, l) && u < |j.wp| && v < |j.wp| && u != v && j.loggerOf[u] == l == j.loggerOf[v]
    && Loaded(j, u, e + 1) && Loaded(j, v, e) && j.s.ge >= e + 1
  }

  lemma LoadsNew(j0: State, m: State, l: nat, u: nat, v: nat) returns (t: State)
    requires Reach(BOTH_GUARDS, None, j0, m) && Ready(m, l) && u < |m.wp| && v < |m.wp| && u != v
          && m.loggerOf[u] == l == m.loggerOf[v]
    requires Loaded(m, v, m.s.ge) && (forall w :: 0 <= w < |m.wp| ==> m.s.workers[w].local == m.s.ge)
    requires m.s.workers[u].mrc == ZERO && m.wp[u].cur == Some(EmptyBuffer(0, u)) && !m.wp[u].pushed
    ensures Reach(BOTH_GUARDS, None, j0, t) && BothLoaded(t, l, u, v, m.s.ge) && t.lg == m.lg
    ensures forall w :: 0 <= w < |t.wp| ==> t.s.workers[w].local == t.s.ge
  {
    hide Reach, Leads;
    var g := BOTH_GUARDS;
    Ticks(g, m);
    Join(g, None, j0, m, Ticked(m));
    t := Take(g, None, j0, Ticked(m), Raise(u));
    var r := G.FreshRid(t.s.recs.Keys);
    assert CanInsert(t, u, r);
    Inserts(g, t, u, r, "new");
    Join(g, None, j0, t, Inserted(t, u, r, "new"));
    t := Inserted(t, u, r, "new");
  }

  /** The ring `from`, perhaps after a notification. */
  ghost predicate TurnedFrom(ring: seq<NR.Bucket>, from: seq<NR.Bucket>) {
    exists n: nat :: n <= |from| && ring == NR.Rotated(from, n)
  }

  lemma TurnsNone(ring: seq<NR.Bucket>)
    ensures TurnedFrom(ring, ring)
  {
    NR.DueStarts(ring, 0);
  }

  lemma RingOne(ring: seq<NR.Bucket>, b: Buffer)
    ensures RingOf(ring, [b]) == Passed(ring, b)
  {
    hide Passed;
    assert RingOf(Passed(ring, b), []) == Passed(ring, b);
  }

  lemma TurnsDue(ring: seq<NR.Bucket>, d: nat)
    ensures TurnedFrom(NR.Rotated(ring, NR.DueCount(ring, d)), ring)
  {
  }

  /** Worker `w` publishes its buffer. */
  lemma PublishesOne(j0: State, m: State, l: nat, w: nat, e: nat) returns (t: State)
    requires Reach(BOTH_GUARDS, None, j0, m) && Ready(m, l) && w < |m.wp| && m.loggerOf[w] == l && Loaded(m, w, e)
          && e <= m.s.ge
    ensures Reach(BOTH_GUARDS, None, j0, t) && t == StepPublish(m, w)
    ensures var b := m.wp[w].cur.value;
            && t.lg[l].queue == map[e := [b]] && t.lg[l].queue != map[] && FlattenTo(t.lg[l].queue, t.s.ge + 1) == [b]
            && ScanMin(t, l, 0, 0) != 0 && Sees(t, l, 0, false)
  {
    hide Reach, FlattenTo;
    var b := m.wp[w].cur.value;
    t := Take(BOTH_GUARDS, None, j0, m, Publish(w));
    assert t.lg[l].queue == map[e := [b]] by { assert [] + [b] == [b]; }
    assert e in t.lg[l].queue;
    OnlyBuffer(b, e, t.s.ge + 1);
    SomeMin(t, l, w, 0, 0);
  }

  /** Worker `w` publishes and the logger writes its buffer. */
  lemma WritesOne(j0: State, m: State, l: nat, w: nat, e: nat) returns (t: State)
    requires Reach(BOTH_GUARDS, None, j0, m) && Ready(m, l) && w < |m.wp| && m.loggerOf[w] == l && Loaded(m, w, e)
          && e <= m.s.ge
    ensures Reach(BOTH_GUARDS, None, j0, t) && Ready(t, l) && t.s == m.s && t.loggerOf == m.loggerOf && |t.lg| == |m.lg|
          && |t.wp| == |m.wp|
    ensures t.lg[l].file == m.lg[l].file + [m.wp[w].cur.value]
    ensures TurnedFrom(t.lg[l].ring, Passed(m.lg[l].ring, m.wp[w].cur.value))
    ensures forall x :: 0 <= x < |m.wp| && x != w ==> t.wp[x].cur == m.wp[x].cur
  {
    hide Reach, Settled, FlattenTo, QueueMin, Passed, TurnedFrom, ScanMin, Sees;
    var g, b := BOTH_GUARDS, m.wp[w].cur.value;
    t := PublishesOne(j0, m, l, w, e);
    t := ToSend(g, None, j0, l, t, true);
    var s := t;
    RingOne(m.lg[l].ring, b);
    assert s.lg[l].ring == Passed(m.lg[l].ring, b);
    t := FromSend(g, None, j0, l, s);
    SettledIs(InPhase(s, l, LCas(s.dur, Least(s.lg, 1, s.lg[0].tld), s.lg[l].phase.min)), l);
    TurnsNone(s.lg[l].ring);
    TurnsDue(s.lg[l].ring, Least(s.lg, 1, s.lg[0].tld));
  }

  /** Worker `u` goes on to another epoch and publishes. */
  lemma WritesNew(j0: State, m: State, l: nat, u: nat, v: nat, e: nat) returns (t: State)
    requires Reach(BOTH_GUARDS, None, j0, m) && BothLoaded(m, l, u, v, e)
    requires forall w :: 0 <= w < |m.wp| ==> m.s.workers[w].local == m.s.ge
    ensures Reach(BOTH_GUARDS, None, j0, t) && Ready(t, l) && v < |t.wp| && t.loggerOf == m.loggerOf && Loaded(t, v, e)
          && e <= t.s.ge
    ensures t.lg[l].file == m.lg[l].file + [m.wp[u].cur.value] && t.wp[v].cur == m.wp[v].cur
    ensures TurnedFrom(t.lg[l].ring, Passed(m.lg[l].ring, m.wp[u].cur.value))
  {
    hide Reach, Leads;
    var g := BOTH_GUARDS;
    t := LeadsOn(g, m);
    Join(g, None, j0, m, t);
    var s := t;
    t := Refreshes(g, s, u);
    Join(g, None, j0, s, t);
    t := WritesOne(j0, t, l, u, e + 1);
  }

  /** Worker `u`'s newer buffer is in the file, and worker `v`'s older one has yet to be published. */
  ghost predicate Behind(t: State, l: nat, u: nat, v: nat, e: nat) {
    && Ready(t, l) && v < |t.wp| && t.loggerOf[v] == l && Loaded(t, v, e) && 1 <= e <= t.s.ge
    && |t.lg[l].file| == 1 && t.lg[l].file[0].recs != [] && t.lg[l].file[0].nids != [] && OneEpoch(t.lg[l].file[0])
        && t.lg[l].file[0].epoch == e + 1
    && TurnedFrom(t.lg[l].ring, Passed([NR.Bucket(0, [])], t.lg[l].file[0]))
  }

  lemma FallsBehind(j0: State, l: nat, u: nat, v: nat) returns (t: State, e: nat)
    requires P.Initial(j0) && u < |j0.wp| && v < |j0.wp| && u != v && j0.loggerOf[u] == l == j0.loggerOf[v]
    ensures Reach(BOTH_GUARDS, None, j0, t) && Behind(t, l, u, v, e)
  {
    hide Reach, Leads, TurnedFrom, Passed;
    t := G.Awakes(BOTH_GUARDS, j0);
    t := LoadsOld(j0, t, v);
    e := t.s.ge;
    t := LoadsNew(j0, t, l, u, v);
    t := WritesNew(j0, t, l, u, v, e);
  }

  /** Two workers on one logger: a run in which its file goes back an epoch. */
  lemma GoesBack(j0: State, l: nat, u: nat, v: nat) returns (t: State)
    requires P.Initial(j0) && u < |j0.wp| && v < |j0.wp| && u != v && j0.loggerOf[u] == l == j0.loggerOf[v]
    ensures Reach(BOTH_GUARDS, None, j0, t) && l < |t.lg| && |t.lg[l].file| == 2
    ensures forall i :: 0 <= i < 2 ==> t.lg[l].file[i].recs != [] && OneEpoch(t.lg[l].file[i])
    ensures t.lg[l].file[0].epoch == t.lg[l].file[1].epoch + 1
  {
    hide Reach, Leads, TurnedFrom, Passed;
    var e;
    t, e := FallsBehind(j0, l, u, v);
    t := WritesOne(j0, t, l, v, e);
  }

  /** Every run of a server writes every log file in epoch order. */
  ghost predicate AlwaysOrdered(g: Guards, j0: State) {
    forall t :: Reach(g, None, j0, t) ==> forall l :: 0 <= l < |t.lg| ==> L.Ordered(t.lg[l].file)
  }

  /**
    With both orderings of the guards every log file is in epoch order in every run exactly if no two workers
    share a logger.
   */
  lemma OrderedIffNoSharing(j0: State)
    requires P.Initial(j0)
    ensures AlwaysOrdered(BOTH_GUARDS, j0) <==> NoSharing(j0)
  {
    if NoSharing(j0) {
      forall t | Reach(BOTH_GUARDS, None, j0, t) ensures forall l :: 0 <= l < |t.lg| ==> L.Ordered(t.lg[l].file) {
        var run :| Leads(BOTH_GUARDS, None, j0, run, t);
        PAlways(BOTH_GUARDS, j0, run);
        L.FilesAreFull(BOTH_GUARDS, j0, run);
        L.FilesOrdered(t);
      }
    } else {
      var u: nat, v: nat :| u < |j0.loggerOf| && v < |j0.loggerOf| && j0.loggerOf[u] == j0.loggerOf[v] && u != v;
      var l := j0.loggerOf[u];
      var t := GoesBack(j0, l, u, v);
      assert t.lg[l].file[0].epoch > t.lg[l].file[1].epoch;
    }
  }

  // ---------------------------------------------------------------- what recovery makes of it

  /** Reading the file, no batch up to epoch `n` holds anything of epoch `e`. */
  ghost predicate Loses(h: C.Hasher, c: L.Codec, file: seq<Buffer>, p: C.Hash, n: nat, e: nat) {
    && L.Read(h, c, file, p, n).Some? && |L.Read(h, c, file, p, n).value.1| == n
    && (e < n ==> L.Read(h, c, file, p, n).value.1[e] == [])
  }

  lemma OneSet(c: L.Codec, b: Buffer)
    requires L.Ordered([b])
    ensures A.InOrder([L.StoredAll(c, b.recs)]) && A.GroupEpoch(L.StoredAll(c, b.recs)) == b.epoch
  {
    L.SetsInOrder(c, [b]);
    assert L.Sets(c, [b]) == [L.StoredAll(c, b.recs)];
    assert A.GroupEpoch(L.Sets(c, [b])[0]) == b.epoch;
  }

  lemma LostSets(h: C.Hasher, g0: seq<C.Rec>, g1: seq<C.Rec>, p: C.Hash, n: nat)
    requires A.InOrder([g0]) && A.InOrder([g1]) && A.GroupEpoch(g1) < A.GroupEpoch(g0)
    ensures var a := A.Opened(h, [g0, g1], p);
            && A.ArchiveOk(a) && A.Epochs(h, C.Tail(h, [g0, g1], p), a, n).Some?
            && (A.GroupEpoch(g1) < n ==> A.Epochs(h, C.Tail(h, [g0, g1], p), a, n).value.1[A.GroupEpoch(g1)] == [])
  {
    A.LateSetIsLost(h, g0, g1, p, n);
    hide A.InOrder, A.GroupEpoch, A.ArchiveOk, A.Opened;
  }

  lemma Lost(h: C.Hasher, c: L.Codec, a: Buffer, b: Buffer, p: C.Hash, n: nat)
    requires a.recs != [] && b.recs != [] && OneEpoch(a) && OneEpoch(b) && b.epoch < a.epoch
    ensures Loses(h, c, [a, b], p, n, b.epoch)
  {
    OneSet(c, a);
    OneSet(c, b);
    assert L.Sets(c, [a, b]) == [L.StoredAll(c, a.recs), L.StoredAll(c, b.recs)];
    hide A.InOrder, A.GroupEpoch, A.Opened, L.StoredAll, L.Sets;
    LostSets(h, L.StoredAll(c, a.recs), L.StoredAll(c, b.recs), p, n);
  }

  /**
    As soon as two workers share a logger some run ends with a file of which recovery, whatever the durable epoch and
    the hash, finds nothing of an epoch that the file has records of.
   */
  lemma SharedLoggerLoses(j0: State) returns (t: State, l: nat)
    requires P.Initial(j0) && !NoSharing(j0)
    ensures Reach(BOTH_GUARDS, None, j0, t) && l < |t.lg| && |t.lg[l].file| == 2 && t.lg[l].file[1].recs != []
    ensures forall h, c, p, n :: Loses(h, c, t.lg[l].file, p, n, t.lg[l].file[1].epoch)
  {
    var u: nat, v: nat :| u < |j0.loggerOf| && v < |j0.loggerOf| && j0.loggerOf[u] == j0.loggerOf[v] && u != v;
    l := j0.loggerOf[u];
    t := GoesBack(j0, l, u, v);
    var file := t.lg[l].file;
    assert file == [file[0], file[1]];
    forall h, c, p, n ensures Loses(h, c, file, p, n, file[1].epoch) {
      Lost(h, c, file[0], file[1], p, n);
    }
  }

  // ---------------------------------------------------------------- what the notification ring makes of it

  /** The ring has no bucket of epoch `e` and has one of a later epoch. */
  ghost predicate NoRoom(ring: seq<NR.Bucket>, e: nat) {
    NR.Ascending(ring) && !NR.Has(ring, e) && ring != [] && ring[|ring| - 1].epoch > e
  }

  lemma PassedLeavesNone(b: Buffer, e: nat)
    requires b.epoch == e + 1 && e >= 1 && b.nids != []
    ensures NoRoom(Passed([NR.Bucket(0, [])], b), e)
  {
    NR.PutIs([NR.Bucket(0, [])], Ps(b.nids), b.epoch, 1);
    assert Passed([NR.Bucket(0, [])], b) == [NR.Bucket(0, []), NR.Bucket(b.epoch, Ps(b.nids))];
  }

  lemma TurningLeavesNone(ring: seq<NR.Bucket>, n: nat, e: nat)
    requires NoRoom(ring, e) && n <= |ring|
    ensures NoRoom(NR.Rotated(ring, n), e)
  {
    NR.RotatedAscends(ring, n);
    if |ring| >= 2 {
      var r := NR.Rotated(ring, n);
      NR.RotatedAt(ring, n);
      hide NR.Rotated;
      forall i | 0 <= i < |r| ensures r[i].epoch != e && (i == |r| - 1 ==> r[i].epoch > e) {
        assert r[i] == NR.Turn(ring, n, i);
      }
    }
  }

  /** Every buffer a logger passes on finds in the ring the bucket that store asserts. */
  ghost predicate AlwaysAccepts(g: Guards, j0: State) {
    forall t :: Reach(g, None, j0, t) ==> forall l :: 0 <= l < |t.lg| ==> NextAccepted(g, t, l)
  }

  ghost predicate NextAccepted(g: Guards, t: State, l: nat)
    requires l < |t.lg|
  {
    P.Enabled(g, t, LogWrite(l)) && t.lg[l].phase.batch != [] ==> NR.Accepts(t.lg[l].ring, t.lg[l].phase.batch[0].epoch)
  }

  /** Worker `v` publishes, and the logger is about to pass its buffer on. */
  lemma PassesLate(j0: State, m: State, l: nat, u: nat, v: nat, e: nat) returns (t: State)
    requires Reach(BOTH_GUARDS, None, j0, m) && Behind(m, l, u, v, e)
    ensures Reach(BOTH_GUARDS, None, j0, t) && l < |t.lg| && P.Enabled(BOTH_GUARDS, t, LogWrite(l))
          && t.lg[l].ring == m.lg[l].ring
    ensures t.lg[l].phase.batch != [] && t.lg[l].phase.batch[0].epoch == e
  {
    hide Reach, FlattenTo, QueueMin, TurnedFrom, Passed, ScanMin, Sees;
    var g := BOTH_GUARDS;
    t := PublishesOne(j0, m, l, v, e);
    var s := t;
    Here(g, None, s);
    t := Take(g, None, s, s, LogStart(l, true));
    t := Scans(g, None, s, l, t, LScan(0, 0, true, false));
    t := Take(g, None, s, t, LogQueueMin(l));
    t := Take(g, None, s, t, LogDeq(l));
    Join(g, None, j0, s, t);
  }

  /** store's assertion holds in every run exactly if no two workers share a logger. */
  lemma AcceptsIffNoSharing(j0: State)
    requires P.Initial(j0)
    ensures AlwaysAccepts(BOTH_GUARDS, j0) <==> NoSharing(j0)
  {
    if NoSharing(j0) {
      forall t, l | Reach(BOTH_GUARDS, None, j0, t) && 0 <= l < |t.lg| ensures NextAccepted(BOTH_GUARDS, t, l) {
        var run :| Leads(BOTH_GUARDS, None, j0, run, t);
        PAlways(BOTH_GUARDS, j0, run);
        RF.RingServes(BOTH_GUARDS, j0, run, l);
      }
    } else {
      var u: nat, v: nat :| u < |j0.loggerOf| && v < |j0.loggerOf| && j0.loggerOf[u] == j0.loggerOf[v] && u != v;
      Refuses(j0, j0.loggerOf[u], u, v);
    }
  }

  lemma Refuses(j0: State, l: nat, u: nat, v: nat)
    requires P.Initial(j0) && u < |j0.wp| && v < |j0.wp| && u != v && j0.loggerOf[u] == l == j0.loggerOf[v]
    ensures !AlwaysAccepts(BOTH_GUARDS, j0)
  {
    hide Reach;
    var m, e := FallsBehind(j0, l, u, v);
    var ring := m.lg[l].ring;
    var n: nat :| n <= |Passed([NR.Bucket(0, [])], m.lg[l].file[0])|
        && ring == NR.Rotated(Passed([NR.Bucket(0, [])], m.lg[l].file[0]), n);
    PassedLeavesNone(m.lg[l].file[0], e);
    TurningLeavesNone(Passed([NR.Bucket(0, [])], m.lg[l].file[0]), n, e);
    var t := PassesLate(j0, m, l, u, v, e);
    assert !NextAccepted(BOTH_GUARDS, t, l);
  }
}
