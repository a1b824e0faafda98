/**
  Nothing blocks a worker: from every reachable state each worker can come to rest by its own steps, with the
  transaction it is in committed or given up.
 */
module SiloFinish {
  import opened Base
  import opened Tid
  import opened Silo
  import opened SiloInv
  import opened SiloTheorems
  import opened SiloProgress

  predicate Small(v: Ver) { v.tid + 1 < TID_LIMIT }

  /** No version in sight is the last of its epoch. */
  ghost predicate NoOverflow(s: State, w: nat)
    requires w < |s.workers|
  {
    var k := s.workers[w];
    Small(k.maxr) && Small(k.maxw) && Small(k.mrc) && forall r :: r in s.recs ==> Small(s.recs[r].ver)
  }

  /** The step to take. */
  function Next(s: State, w: nat): Event
    requires w < |s.workers|
  {
    var k := s.workers[w];
    match k.phase
    case Idle => Begin(w)
    case Leading(_, _) => Lead(w)
    case Refreshing => EwLoad(w)
    case Refreshed => EwStore(w)
    case Exec => GiveUp(w)
    case Checking(_, _) => ReadCheck(w)
    case Fetching(_, _) => ReadBody(w)
    case Locking(_) => LockNext(w)
    case Locked => LoadEpoch(w)
    case Loaded => StoreEpoch(w)
    case Validating(j) => if j < |k.rset| then ValidateNext(w) else Commit(w)
    case Logging => Logged(w)
    case Installing(_, _) => InstallNext(w)
    case Unlocking(_, _) => UnlockNext(w)
    case Dropping(_) => DropNext(w)
  }

  function Minus(a: nat, b: nat): nat { if a < b then 0 else a - b }

  /** How far worker `w` is from rest. */
  function Rank(s: State, w: nat): nat
    requires w < |s.workers|
  {
    var k := s.workers[w];
    var n, m := |k.wset|, |k.rset|;
    match k.phase
    case Idle => 0
    case Refreshed => 1
    case Refreshing => 2
    case Leading(i, _) => 3 + Minus(|s.workers|, i)
    case Dropping(i) => 1 + Minus(n, i)
    case Exec => n + 2
    case Fetching(_, _) => n + 3
    case Checking(r, ver) => if r in s.recs && s.recs[r].ver == ver then n + 4 else n + 5
    case Unlocking(i, last) => n + 2 + Minus(last, i)
    case Installing(i, dirty) => 1 + 2 * Minus(n, i) + if dirty then 0 else 1
    case Logging => 2 * n + 3
    case Validating(j) => 2 * n + 4 + Minus(m, j)
    case Loaded => 2 * n + m + 5
    case Locked => 2 * n + m + 6
    case Locking(i) => 2 * n + m + 7 + Minus(n, i)
  }

  /** It can be taken, */
  lemma NextEnabled(s: State, w: nat)
    requires Inv(s) && w < |s.workers| && (Open(s.workers[w].phase) ==> NoOverflow(s, w))
    ensures Enabled(s, Next(s, w)) && Next(s, w).w == w
  {
    assert WInv(s, w);
    var k := s.workers[w];
    assert k.phase.Validating? && k.phase.j < |k.rset| ==> ReadOk(s, k.rset[k.phase.j], Cap(s, k));
  }

  /** and brings the worker nearer to rest: outside of a transaction, */
  lemma NearerOutside(s: State, w: nat)
    requires w < |s.workers| && WShape(s.workers[w]) && Enabled(s, Next(s, w))
    requires var ph := s.workers[w].phase; Resting(ph) && !ph.Idle?
    ensures w < |Step(s, Next(s, w)).workers| && Rank(Step(s, Next(s, w)), w) < Rank(s, w)
    ensures !Open(Step(s, Next(s, w)).workers[w].phase)
  {
  }

  /** on its way out of one */
  lemma NearerLeaving(s: State, w: nat)
    requires w < |s.workers| && WShape(s.workers[w]) && Enabled(s, Next(s, w))
    requires var ph := s.workers[w].phase; ph.Unlocking? || ph.Dropping?
    ensures w < |Step(s, Next(s, w)).workers| && Rank(Step(s, Next(s, w)), w) < Rank(s, w)
    ensures !Open(Step(s, Next(s, w)).workers[w].phase)
  {
  }

  /** or through with it, */
  lemma NearerWriting(s: State, w: nat)
    requires w < |s.workers| && WShape(s.workers[w]) && Enabled(s, Next(s, w))
    requires var ph := s.workers[w].phase; Chosen(ph)
    ensures w < |Step(s, Next(s, w)).workers| && Rank(Step(s, Next(s, w)), w) < Rank(s, w)
    ensures !Open(Step(s, Next(s, w)).workers[w].phase)
  {
  }

  /** during its operations, */
  lemma NearerReading(s: State, w: nat)
    requires w < |s.workers| && WShape(s.workers[w]) && Enabled(s, Next(s, w))
    requires var ph := s.workers[w].phase; ph.Checking?
    ensures w < |Step(s, Next(s, w)).workers| && Rank(Step(s, Next(s, w)), w) < Rank(s, w)
    ensures NoOverflow(s, w) ==> NoOverflow(Step(s, Next(s, w)), w)
  {
  }

  /** at their end, */
  lemma NearerExec(s: State, w: nat)
    requires w < |s.workers| && WShape(s.workers[w]) && Enabled(s, Next(s, w))
    requires var ph := s.workers[w].phase; ph.Exec? || ph.Fetching?
    ensures w < |Step(s, Next(s, w)).workers| && Rank(Step(s, Next(s, w)), w) < Rank(s, w)
    ensures NoOverflow(s, w) ==> NoOverflow(Step(s, Next(s, w)), w)
  {
  }

  /** while it locks, */
  lemma NearerLocking(s: State, w: nat)
    requires w < |s.workers| && WShape(s.workers[w]) && Enabled(s, Next(s, w))
    requires var ph := s.workers[w].phase; ph.Locking?
    ensures w < |Step(s, Next(s, w)).workers| && Rank(Step(s, Next(s, w)), w) < Rank(s, w)
    ensures NoOverflow(s, w) && Open(Step(s, Next(s, w)).workers[w].phase) ==> NoOverflow(Step(s, Next(s, w)), w)
  {
  }

  /** when it has locked, */
  lemma NearerLocked(s: State, w: nat)
    requires w < |s.workers| && WShape(s.workers[w]) && Enabled(s, Next(s, w))
    requires var ph := s.workers[w].phase; ph.Locked? || ph.Loaded?
    ensures w < |Step(s, Next(s, w)).workers| && Rank(Step(s, Next(s, w)), w) < Rank(s, w)
    ensures NoOverflow(s, w) && Open(Step(s, Next(s, w)).workers[w].phase) ==> NoOverflow(Step(s, Next(s, w)), w)
  {
  }

  /** and while it validates. */
  lemma NearerValidating(s: State, w: nat)
    requires w < |s.workers| && WShape(s.workers[w]) && Enabled(s, Next(s, w))
    requires var ph := s.workers[w].phase; ph.Validating?
    ensures w < |Step(s, Next(s, w)).workers| && Rank(Step(s, Next(s, w)), w) < Rank(s, w)
    ensures NoOverflow(s, w) && Open(Step(s, Next(s, w)).workers[w].phase) ==> NoOverflow(Step(s, Next(s, w)), w)
  {
  }

  lemma NextNearer(s: State, w: nat)
    requires Inv(s) && w < |s.workers| && !s.workers[w].phase.Idle? && Enabled(s, Next(s, w))
    requires Open(s.workers[w].phase) ==> NoOverflow(s, w)
    ensures var t := Step(s, Next(s, w));
            w < |t.workers| && Rank(t, w) < Rank(s, w) && (Open(t.workers[w].phase) ==> NoOverflow(t, w))
  {
    assert WInv(s, w);
    hide Inv, WInv, Step, Enabled, Rank, NoOverflow;
    var ph := s.workers[w].phase;
    if Resting(ph) {
      NearerOutside(s, w);
    } else if ph.Unlocking? || ph.Dropping? {
      NearerLeaving(s, w);
    } else if Chosen(ph) {
      NearerWriting(s, w);
    } else if ph.Checking? {
      NearerReading(s, w);
    } else if ph.Exec? || ph.Fetching? {
      NearerExec(s, w);
    } else if ph.Validating? {
      NearerValidating(s, w);
    } else if ph.Locking? {
      NearerLocking(s, w);
    } else {
      NearerLocked(s, w);
    }
  }

  lemma {:induction false} ComesToRest(s: State, w: nat, m: State) returns (t: State)
    requires Reach(s, w, m) && Inv(m) && w < |m.workers| && (Open(m.workers[w].phase) ==> NoOverflow(m, w))
    ensures Reach(s, w, t) && w < |t.workers| && t.workers[w].phase.Idle?
    decreases Rank(m, w)
  {
    hide Reach, Inv, Step, Enabled, NoOverflow, Rank, Next;
    t := m;
    if !m.workers[w].phase.Idle? {
      NextEnabled(m, w);
      NextNearer(m, w);
      t := Take(s, w, m, Next(m, w));
      t := ComesToRest(s, w, t);
    }
  }

  /**
    No reachable state blocks a worker. Whatever the others are doing, it comes to rest by its own steps;
    all that can stand in the way is that it has a TID to choose and some version in sight is the last of
    its epoch.
   */
  lemma CanFinish(s0: State, run: seq<Event>, w: nat) returns (more: seq<Event>)
    requires Initial(s0) && After(s0, run).Some? && w < |After(s0, run).value.workers|
    requires Open(After(s0, run).value.workers[w].phase) ==> NoOverflow(After(s0, run).value, w)
    ensures (forall i :: 0 <= i < |more| ==> more[i].w == w) && After(s0, run + more).Some?
    ensures w < |After(s0, run + more).value.workers| && After(s0, run + more).value.workers[w].phase.Idle?
  {
    Always(s0, run);
    var s := After(s0, run).value;
    hide Initial, Inv;
    Here(s, w);
    var t := ComesToRest(s, w, s);
    more :| Leads(s, w, more, t);
    AfterJoin(s0, run, more);
  }
}
