/**
  Rely and guarantee: what a worker may count on while others take steps, and the proof that its
  part of the invariant survives anything that respects it.
 */
module SiloRely {
  import opened Tid
  import opened Silo
  import opened SiloInv

  /** A record never goes back, and an unchanged version means an unchanged, completely stored value. */
  ghost predicate RecRely(s: State, s': State, r: Rid)
    requires r in s.recs && r in s'.recs
  {
    var a, b := s.recs[r], s'.recs[r];
    && AtMost(a.ver, b.ver)
    && (b.ver == a.ver ==> b.absent == a.absent && (!Dirty(s', r) ==> !Dirty(s, r) && b.body == a.body))
  }

  /** An entry changes only by being decided, and only by its own worker. */
  ghost predicate EntryRely(a: Entry, b: Entry, u: nat) {
    a == b || (a.status.Pending? && !b.status.Pending? && a.w != u && b == a.(status := b.status, ver := b.ver))
  }

  /** A newly committed entry has a later version than every record it is about to replace. */
  ghost predicate DecideRely(s: State, a: Entry, b: Entry) {
    a.status.Pending? && b.status.Committed? ==>
      forall r :: Writes(a.wset, r) ==> r in s.recs && Below(s.recs[r].ver, b.ver)
  }

  /** New entries are pending and avoid what `u` holds. */
  ghost predicate NewRely(s: State, b: Entry, u: nat) {
    b.status.Pending? && b.w != u && forall r :: Writes(b.wset, r) && r in s.recs ==> s.recs[r].owner != Own(u)
  }

  ghost predicate Rely(s: State, s': State, u: nat) {
    && u < |s.workers| && |s'.workers| == |s.workers| && s'.workers[u] == s.workers[u]
    && s.ge <= s'.ge && s'.init == s.init
    && (forall r :: r in s.recs ==> r in s'.recs && RecRely(s, s', r))
    && (forall r :: r in s.recs && s.recs[r].owner == Own(u) ==> s'.recs[r] == s.recs[r])
    && |s.order| <= |s'.order|
    && (forall p :: 0 <= p < |s.order| ==>
        EntryRely(s.order[p], s'.order[p], u) && DecideRely(s, s.order[p], s'.order[p]))
    && (forall p :: |s.order| <= p < |s'.order| ==> NewRely(s, s'.order[p], u))
  }

  // ---------------------------------------------------------------- the order under rely

  /** Two orders with the same committed writers of `r` agree on `r`. */
  lemma SameWriters(init: map<Rid, Val>, a: seq<Entry>, n: nat, b: seq<Entry>, m: nat, r: Rid)
    requires n <= |a| && m <= |b|
    requires forall q :: 0 <= q < n && CommittedWriter(a[q], r) ==> q < m && a[q] == b[q]
    requires forall q :: 0 <= q < m && CommittedWriter(b[q], r) ==> q < n && a[q] == b[q]
    ensures LastWriter(a, n, r) == LastWriter(b, m, r)
    ensures VerAt(a, n, r) == VerAt(b, m, r) && ValAt(init, a, n, r) == ValAt(init, b, m, r)
    ensures Known(init, a, n, r) == Known(init, b, m, r)
  {
    var p, q := LastWriter(a, n, r), LastWriter(b, m, r);
    assert p >= 0 ==> a[p] == b[p];
  }

  /** A committed writer somewhere before `n` makes the record known. */
  lemma KnownBy(init: map<Rid, Val>, order: seq<Entry>, n: nat, q: nat, r: Rid)
    requires q < n <= |order| && CommittedWriter(order[q], r)
    ensures Known(init, order, n, r)
  {
    assert LastWriter(order, n, r) >= q;
  }

  /** Known records stay known. */
  lemma KnownStays(s: State, s': State, u: nat, n: nat, n': nat, r: Rid)
    requires Rely(s, s', u) && n <= |s.order| && n <= n' <= |s'.order|
    requires Known(s.init, s.order, n, r)
    ensures Known(s'.init, s'.order, n', r)
  {
    if r !in s.init {
      var p := LastWriter(s.order, n, r);
      assert EntryRely(s.order[p], s'.order[p], u);
      KnownBy(s'.init, s'.order, n', p, r);
    }
  }

  lemma FixedStays(s: State, s': State, u: nat, p: nat, e: RElem)
    requires Rely(s, s', u) && p <= |s.order| && Fixed(s, p, e)
    ensures Fixed(s', p, e)
  {
    forall q | 0 <= q < p
      ensures CommittedWriter(s'.order[q], e.r) ==> s.order[q] == s'.order[q]
      ensures CommittedWriter(s.order[q], e.r) ==> s.order[q] == s'.order[q]
      ensures s'.order[q].status.Pending? ==> s.order[q] == s'.order[q]
    {
      assert EntryRely(s.order[q], s'.order[q], u);
    }
    SameWriters(s.init, s.order, p, s'.order, p, e.r);
  }

  // ---------------------------------------------------------------- stability

  lemma HoldsStay(s: State, s': State, u: nat)
    requires Rely(s, s', u) && WInv(s, u)
    ensures WHolds(s', u)
    ensures forall m :: 0 <= m < |s.workers[u].wset| && Holds(s.workers[u], m) ==>
              s'.recs[s.workers[u].wset[m].r] == s.recs[s.workers[u].wset[m].r]
  {
  }

  lemma ReadsStay(s: State, s': State, u: nat)
    requires Rely(s, s', u) && WInv(s, u)
    ensures WReads(s', u)
  {
    var k := s.workers[u];
    if Open(k.phase) {
      forall i | 0 <= i < |k.rset| ensures ReadOk(s', k.rset[i], Cap(s', k)) {
        assert ReadOk(s, k.rset[i], Cap(s, k));
        assert RecRely(s, s', k.rset[i].r);
      }
      if k.phase.Checking? || k.phase.Fetching? {
        assert RecRely(s, s', k.phase.r);
      }
    }
  }

  lemma MaxStay(s: State, s': State, u: nat)
    requires Rely(s, s', u) && WInv(s, u) && WHolds(s', u)
    ensures WMax(s', u)
  {
    HoldsStay(s, s', u);
    var k := s.workers[u];
    if k.phase.Locking? || k.phase.Locked? || k.phase.Unlocking? || InFlight(k.phase) {
      forall m | 0 <= m < |k.wset| && Holds(k, m) && !k.wset[m].op.Insert?
        ensures Known(s'.init, s'.order, |s'.order|, k.wset[m].r)
      {
        KnownStays(s, s', u, |s.order|, |s'.order|, k.wset[m].r);
      }
    }
  }

  lemma EntryStays(s: State, s': State, u: nat)
    requires Rely(s, s', u) && WInv(s, u)
    ensures WEntry(s', u)
  {
    var k := s.workers[u];
    if Posted(k.phase) {
      assert EntryRely(s.order[k.pos], s'.order[k.pos], u);
      forall q | k.pos < q < |s'.order| ensures s'.order[q].w != u {
        if q < |s.order| {
          assert EntryRely(s.order[q], s'.order[q], u);
        } else {
          assert NewRely(s, s'.order[q], u);
        }
      }
    }
  }

  lemma PostStays(s: State, s': State, u: nat)
    requires Rely(s, s', u) && WInv(s, u) && WHolds(s', u) && WEntry(s', u)
    ensures WPost(s', u)
  {
    var k := s.workers[u];
    if Posted(k.phase) {
      HoldsStay(s, s', u);
      forall m, q | 0 <= m < |k.wset| && Holds(k, m) && k.pos < q < |s'.order| && !s'.order[q].status.Aborted?
        ensures !Writes(s'.order[q].wset, k.wset[m].r)
      {
        if q < |s.order| {
          assert EntryRely(s.order[q], s'.order[q], u);
        } else {
          assert NewRely(s, s'.order[q], u);
        }
      }
      if InFlight(k.phase) {
        forall i, q | 0 <= i < |k.rset| && k.pos < q < |s'.order| && CommittedWriter(s'.order[q], k.rset[i].r)
          ensures Below(k.rset[i].ver, s'.order[q].ver)
        {
          LaterWriterStays(s, s', u, i, q);
        }
        forall m | 0 <= m < |k.wset| && !k.wset[m].op.Insert?
          ensures Known(s'.init, s'.order, k.pos, k.wset[m].r)
        {
          KnownStays(s, s', u, k.pos, k.pos, k.wset[m].r);
        }
      }
      if k.phase.Validating? {
        forall i | 0 <= i < k.phase.j && i < |k.rset| ensures Fixed(s', k.pos, k.rset[i]) {
          FixedStays(s, s', u, k.pos, k.rset[i]);
        }
      }
    }
  }

  lemma LaterWriterStays(s: State, s': State, u: nat, i: nat, q: nat)
    requires Rely(s, s', u) && WInv(s, u)
    requires InFlight(s.workers[u].phase) && i < |s.workers[u].rset| && s.workers[u].pos < q < |s'.order|
    requires CommittedWriter(s'.order[q], s.workers[u].rset[i].r)
    ensures Below(s.workers[u].rset[i].ver, s'.order[q].ver)
  {
    var k := s.workers[u];
    assert ReadOk(s, k.rset[i], Cap(s, k));
    if q < |s.order| {
      assert EntryRely(s.order[q], s'.order[q], u) && DecideRely(s, s.order[q], s'.order[q]);
      if s.order[q].status.Pending? {
        assert Writes(s.order[q].wset, k.rset[i].r);
      }
    }
  }

  /** A worker's invariant survives every step of the others. */
  lemma WStays(s: State, s': State, u: nat)
    requires Rely(s, s', u) && WInv(s, u)
    ensures WInv(s', u)
  {
    HoldsStay(s, s', u);
    ReadsStay(s, s', u);
    MaxStay(s, s', u);
    EntryStays(s, s', u);
    PostStays(s, s', u);
  }
}
