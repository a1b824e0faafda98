/**
  What the commit protocol must let pass: validation fails only for a record that was overwritten or is
  held by somebody else, and a transaction that runs alone commits
  (server/enclave/silo_cc/silo_transaction.cpp, validationPhase and writePhase).
 */
module SiloProgress {
  import opened Base
  import opened Tid
  import opened Silo
  import opened SiloInv
  import opened SiloTheorems

  // ---------------------------------------------------------------- one validation test

  /**
    A test aborts the transaction if and only if the record was overwritten since the read, or somebody
    else holds it; otherwise the transaction stays undecided.
   */
  lemma AbortsIff(s: State, w: nat)
    requires Inv(s) && Enabled(s, ValidateNext(w))
    ensures var k, s' := s.workers[w], Step(s, ValidateNext(w));
            var el := k.rset[k.phase.j];
            var owner := s.recs[el.r].owner;
            && |s'.order| == |s.order| && s.order[k.pos].status.Pending?
            && s'.order[k.pos].status
               == if s.recs[el.r].ver != el.ver || (owner != Own(w) && !owner.Free?) then Aborted else Pending
  {
    var k := s.workers[w];
    var r := k.rset[k.phase.j].r;
    assert WInv(s, w) && RInv(s, r);
    if Writes(k.wset, r) {
      var m :| 0 <= m < |k.wset| && k.wset[m].r == r;
      assert Holds(k, m);
    }
  }

  /** Locking gives up if and only if somebody else holds the record, and otherwise the record is the worker's. */
  lemma LockFailsIff(s: State, w: nat)
    requires Inv(s) && Enabled(s, LockNext(w)) && s.workers[w].phase.i < |s.workers[w].wset|
    ensures var k, s' := s.workers[w], Step(s, LockNext(w));
            var r := k.wset[k.phase.i].r;
            && w < |s'.workers| && r in s'.recs
            && (s'.workers[w].phase.Unlocking? <==> s.recs[r].owner != Own(w) && !s.recs[r].owner.Free?)
            && (!s'.workers[w].phase.Unlocking? ==>
                s'.workers[w].phase == Locking(k.phase.i + 1) && s'.recs[r].owner == Own(w))
  {
    var k := s.workers[w];
    var r := k.wset[k.phase.i].r;
    assert WInv(s, w) && RInv(s, r);
    if s.recs[r].owner == Own(w) {
      var m :| 0 <= m < |k.wset| && Holds(k, m) && k.wset[m].r == r;
      assert m == k.phase.i;
    }
  }

  // ---------------------------------------------------------------- reaching a state by one worker's steps

  ghost predicate Leads(s: State, w: nat, run: seq<Event>, t: State) {
    After(s, run) == Some(t) && forall i :: 0 <= i < |run| ==> run[i].w == w
  }

  ghost predicate Reach(s: State, w: nat, t: State) { exists run :: Leads(s, w, run, t) }

  lemma Here(s: State, w: nat)
    ensures Reach(s, w, s)
  {
    assert Leads(s, w, [], s);
  }

  /** One step more, which keeps the invariant. */
  lemma Take(s: State, w: nat, m: State, e: Event) returns (t: State)
    requires Reach(s, w, m) && Inv(m) && Enabled(m, e) && e.w == w
    ensures t == Step(m, e) && Reach(s, w, t) && Inv(t)
  {
    t := Step(m, e);
    var run :| Leads(s, w, run, m);
    assert (run + [e])[..|run + [e]| - 1] == run;
    assert Leads(s, w, run + [e], t);
    InvKeeps(m, e);
  }

  // ---------------------------------------------------------------- a transaction alone

  /** Nobody but worker `w` is in a transaction. */
  ghost predicate Alone(s: State, w: nat) {
    Inv(s) && w < |s.workers| && forall u :: 0 <= u < |s.workers| && u != w ==> Resting(s.workers[u].phase)
  }

  /** What worker `w` read is current, and nothing it needs was abandoned. */
  ghost predicate Current(s: State, w: nat)
    requires w < |s.workers|
  {
    var k := s.workers[w];
    && (forall i :: 0 <= i < |k.rset| ==>
          k.rset[i].r in s.recs && s.recs[k.rset[i].r].ver == k.rset[i].ver && !s.recs[k.rset[i].r].owner.Orphan?)
    && (forall m :: 0 <= m < |k.wset| ==> k.wset[m].r in s.recs && !s.recs[k.wset[m].r].owner.Orphan?)
  }

  /** The TID field of GlobalEpoch has room for a successor of everything involved. */
  ghost predicate HasRoom(s: State, w: nat)
    requires w < |s.workers|
  {
    var k := s.workers[w];
    && Room(k.mrc, s.ge) && Room(k.maxr, s.ge) && Room(k.maxw, s.ge)
    && (forall i :: 0 <= i < |k.rset| && k.rset[i].r in s.recs ==> Room(s.recs[k.rset[i].r].ver, s.ge))
    && (forall m :: 0 <= m < |k.wset| && k.wset[m].r in s.recs ==> Room(s.recs[k.wset[m].r].ver, s.ge))
  }

  ghost predicate Ready(s: State, w: nat) { Alone(s, w) && Current(s, w) && HasRoom(s, w) }

  /** Whatever is locked, worker `w` holds. */
  lemma LockedByMe(s: State, w: nat, r: Rid)
    requires Alone(s, w) && r in s.recs && s.recs[r].lock && !s.recs[r].owner.Orphan?
    ensures s.recs[r].owner == Own(w) && HoldsRid(s.workers[w], r)
  {
    assert RInv(s, r);
    var u := s.recs[r].owner.w;
    assert WInv(s, u);
    assert HoldsRid(s.workers[u], r);
  }

  /** What does not change while worker `w` runs alone. */
  ghost predicate Same(s: State, t: State, w: nat) {
    && w < |s.workers| == |t.workers| && t.ge == s.ge && t.init == s.init
    && t.workers[w].rset == s.workers[w].rset && t.workers[w].wset == s.workers[w].wset
  }

  lemma {:induction false} Locks(s: State, w: nat, m: State) returns (t: State)
    requires Reach(s, w, m) && Ready(m, w) && m.workers[w].phase.Locking?
    ensures Reach(s, w, t) && Ready(t, w) && t.workers[w].phase == Locked && Same(m, t, w) && t.order == m.order
    decreases |m.workers[w].wset| - m.workers[w].phase.i
  {
    hide Reach, Inv;
    var k := m.workers[w];
    var i := k.phase.i;
    LockingOk(m, w);
    t := Take(s, w, m, LockNext(w));
    LockedOn(m, w);
    if i < |k.wset| {
      t := Locks(s, w, t);
    }
  }

  lemma LockingOk(m: State, w: nat)
    requires Ready(m, w) && m.workers[w].phase.Locking?
    ensures m.workers[w].phase.i <= |m.workers[w].wset| && Enabled(m, LockNext(w))
    ensures var k := m.workers[w]; k.phase.i < |k.wset| && !k.wset[k.phase.i].op.Insert? ==>
          !m.recs[k.wset[k.phase.i].r].lock
  {
    var k := m.workers[w];
    assert WInv(m, w);
    if k.phase.i < |k.wset| && !k.wset[k.phase.i].op.Insert? && m.recs[k.wset[k.phase.i].r].lock {
      LockedByMe(m, w, k.wset[k.phase.i].r);
    }
  }

  lemma LockedOn(m: State, w: nat)
    requires Ready(m, w) && m.workers[w].phase.Locking? && Enabled(m, LockNext(w))
    requires var k := m.workers[w]; k.phase.i < |k.wset| && !k.wset[k.phase.i].op.Insert? ==>
          !m.recs[k.wset[k.phase.i].r].lock
    ensures var t := Step(m, LockNext(w));
            && Same(m, t, w) && t.order == m.order && (Inv(t) ==> Ready(t, w))
            && t.workers[w].phase
               == if m.workers[w].phase.i < |m.workers[w].wset| then Locking(m.workers[w].phase.i + 1) else Locked
  {
  }

  /** Worker `w` has entered the serial order last, and is undecided. */
  ghost predicate Entered(s: State, w: nat) {
    && w < |s.workers| && |s.order| > 0 && s.workers[w].pos == |s.order| - 1 && s.workers[w].local == s.ge
    && s.order[|s.order| - 1].status.Pending?
  }

  lemma Enters(s: State, w: nat, m: State) returns (t: State)
    requires Reach(s, w, m) && Ready(m, w) && m.workers[w].phase.Locked?
    ensures Reach(s, w, t) && Ready(t, w) && Entered(t, w) && t.workers[w].phase == Validating(0) && Same(m, t, w)
    ensures t.order == m.order + [Entry(w, Pending, m.workers[w].rset, m.workers[w].wset, ZERO, m.ge)]
  {
    hide Reach, Inv;
    t := Take(s, w, m, LoadEpoch(w));
    t := Take(s, w, t, StoreEpoch(w));
  }

  lemma PassesOn(m: State, w: nat)
    requires Ready(m, w) && Entered(m, w) && m.workers[w].phase.Validating?
          && m.workers[w].phase.j < |m.workers[w].rset|
    ensures Enabled(m, ValidateNext(w))
    ensures var t := Step(m, ValidateNext(w));
            && Same(m, t, w) && t.order == m.order && (Inv(t) ==> Ready(t, w) && Entered(t, w))
            && t.workers[w].phase == Validating(m.workers[w].phase.j + 1)
  {
    var k := m.workers[w];
    var r := k.rset[k.phase.j].r;
    if m.recs[r].lock {
      LockedByMe(m, w, r);
      var n :| 0 <= n < |k.wset| && Holds(k, n) && k.wset[n].r == r;
      assert Writes(k.wset, r);
    }
    assert RInv(m, r);
  }

  lemma {:induction false} Passes(s: State, w: nat, m: State) returns (t: State)
    requires Reach(s, w, m) && Ready(m, w) && Entered(m, w) && m.workers[w].phase.Validating?
    ensures Reach(s, w, t) && Ready(t, w) && Entered(t, w) && Same(m, t, w) && t.order == m.order
    ensures t.workers[w].phase == Validating(|t.workers[w].rset|)
    decreases |m.workers[w].rset| - m.workers[w].phase.j
  {
    hide Reach, Inv;
    assert m.workers[w].phase.j <= |m.workers[w].rset| by { ValidatingIn(m, w); }
    t := m;
    if m.workers[w].phase.j < |m.workers[w].rset| {
      PassesOn(m, w);
      t := Take(s, w, m, ValidateNext(w));
      t := Passes(s, w, t);
    }
  }

  lemma ValidatingIn(m: State, w: nat)
    requires Inv(m) && w < |m.workers| && m.workers[w].phase.Validating?
    ensures m.workers[w].phase.j <= |m.workers[w].rset|
  {
    assert WInv(m, w);
  }

  /** The last entry of the serial order is worker `w`'s committed transaction. */
  ghost predicate Committing(before: seq<Entry>, t: State, rset: seq<RElem>, wset: seq<WElem>, w: nat) {
    && |t.order| == |before| + 1 && t.order[..|before|] == before
    && var e := t.order[|before|];
       e.w == w && e.status.Committed? && e.rset == rset && e.wset == wset
  }

  lemma Commits(s: State, w: nat, m: State, before: seq<Entry>) returns (t: State)
    requires Reach(s, w, m) && Ready(m, w) && Entered(m, w) && m.workers[w].phase == Validating(|m.workers[w].rset|)
    requires m.order == before + [Entry(w, Pending, m.workers[w].rset, m.workers[w].wset, ZERO, m.ge)]
    ensures Reach(s, w, t) && Alone(t, w) && t.workers[w].phase == Installing(0, false) && t.ge == m.ge
    ensures Committing(before, t, m.workers[w].rset, m.workers[w].wset, w)
  {
    hide Reach, Inv, Current;
    t := Take(s, w, m, Commit(w));
    t := Take(s, w, t, Logged(w));
  }

  /** What is left to install. */
  function Left(k: Worker): nat
    requires k.phase.Installing? && k.phase.i <= |k.wset|
  {
    2 * (|k.wset| - k.phase.i) + if k.phase.dirty then 0 else 1
  }

  lemma InstallingOn(m: State, w: nat)
    requires Alone(m, w) && m.workers[w].phase.Installing?
    ensures m.workers[w].phase.i <= |m.workers[w].wset| && Enabled(m, InstallNext(w))
    ensures var k, t := m.workers[w], Step(m, InstallNext(w));
            && t.order == m.order && t.ge == m.ge && w < |t.workers| && (Inv(t) ==> Alone(t, w))
            && (t.workers[w].phase.Idle? ||
                (t.workers[w].phase.Installing? && t.workers[w].wset == k.wset && t.workers[w].phase.i <= |k.wset|
                    && Left(t.workers[w]) < Left(k)))
  {
    assert WInv(m, w);
  }

  lemma {:induction false} Installs(s: State, w: nat, m: State) returns (t: State)
    requires Reach(s, w, m) && Alone(m, w) && m.workers[w].phase.Installing?
          && m.workers[w].phase.i <= |m.workers[w].wset|
    ensures Reach(s, w, t) && Alone(t, w) && t.workers[w].phase.Idle? && t.order == m.order && t.ge == m.ge
    decreases Left(m.workers[w])
  {
    hide Reach, Inv;
    InstallingOn(m, w);
    t := Take(s, w, m, InstallNext(w));
    if !t.workers[w].phase.Idle? {
      t := Installs(s, w, t);
    }
  }

  /** From its operations on, a transaction that is alone, whose reads are current, commits and lets everything go. */
  lemma FinishesAlone(s: State, w: nat, m: State) returns (t: State)
    requires Reach(s, w, m) && Ready(m, w) && m.workers[w].phase.Exec?
    ensures Reach(s, w, t) && Alone(t, w) && t.workers[w].phase.Idle? && t.ge == m.ge
    ensures Committing(m.order, t, m.workers[w].rset, m.workers[w].wset, w)
  {
    hide Reach, Inv, Current, HasRoom;
    t := Begins(s, w, m);
    t := Locks(s, w, t);
    t := Enters(s, w, t);
    t := Passes(s, w, t);
    t := Commits(s, w, t, m.order);
    var order := t.order;
    t := Installs(s, w, t);
  }

  lemma Begins(s: State, w: nat, m: State) returns (t: State)
    requires Reach(s, w, m) && Ready(m, w) && m.workers[w].phase.Exec?
    ensures Reach(s, w, t) && Ready(t, w) && t.workers[w].phase.Locking? && Same(m, t, w) && t.order == m.order
  {
    hide Reach, Inv;
    t := Take(s, w, m, LockBegin(w));
  }

  // ---------------------------------------------------------------- a whole transaction

  /** What a client asks for. */
  datatype Ask = Get(r: Rid) | Put(r: Rid, op: Op, val: Val) | Add(r: Rid, val: Val)

  /** No earlier request among `asks` is for `r`; with `writes`, no earlier write or insertion. */
  predicate First(asks: seq<Ask>, r: Rid, writes: bool) {
    forall i :: 0 <= i < |asks| && asks[i].r == r ==> writes && asks[i].Get?
  }

  /**
    Request `a` after `before` in state `s`: a first read of a record that is there, a first write or
    deletion of an unlocked one, or an insertion of a new one.
   */
  predicate CanAsk(s: State, before: seq<Ask>, a: Ask) {
    match a
    case Get(r) =>
      r in s.recs && !s.recs[r].lock && !s.recs[r].absent && First(before, r, false) && Room(s.recs[r].ver, s.ge)
    case Put(r, op, _) =>
      r in s.recs && !s.recs[r].lock && !op.Insert? && First(before, r, true) && Room(s.recs[r].ver, s.ge)
    case Add(r, _) => r !in s.recs && First(before, r, true)
  }

  ghost predicate CanAskAll(s: State, w: nat, asks: seq<Ask>) {
    && w < |s.workers| && s.workers[w].phase.Idle? && Room(s.workers[w].mrc, s.ge)
    && (forall u :: 0 <= u < |s.workers| && u != w ==> Resting(s.workers[u].phase))
    && forall i :: 0 <= i < |asks| ==> CanAsk(s, asks[..i], asks[i])
  }

  /** What one request should add to the reads and the writes, by the state it finds. */
  function GotBy(s: State, a: Ask): seq<RElem> {
    match a
    case Get(r) => if r in s.recs then [RElem(r, s.recs[r].ver, Some(s.recs[r].body))] else []
    case Put(_, _, _) => []
    case Add(r, _) => [RElem(r, ZERO, None)]
  }

  function MadeBy(a: Ask): seq<WElem> {
    match a
    case Get(_) => []
    case Put(r, op, val) => [WElem(r, op, val)]
    case Add(r, val) => [WElem(r, Insert, val)]
  }

  function Got(s: State, asks: seq<Ask>): seq<RElem> {
    if asks == [] then [] else Got(s, asks[..|asks| - 1]) + GotBy(s, asks[|asks| - 1])
  }

  function Made(asks: seq<Ask>): seq<WElem> {
    if asks == [] then [] else Made(asks[..|asks| - 1]) + MadeBy(asks[|asks| - 1])
  }

  /** What the requests `asks` have made of state `s`. */
  ghost predicate Asked(s: State, w: nat, asks: seq<Ask>, m: State) {
    && w < |s.workers| && w < |m.workers| && m.workers[w].phase.Exec? && m.ge == s.ge && m.order == s.order
    && m.workers[w].rset == Got(s, asks) && m.workers[w].wset == Made(asks)
    && (forall r :: r in s.recs ==> r in m.recs && m.recs[r] == s.recs[r])
    && (forall r :: r in m.recs && r !in s.recs ==> Added(asks, r))
  }

  predicate Added(asks: seq<Ask>, r: Rid) { exists i :: 0 <= i < |asks| && asks[i].r == r && asks[i].Add? }

  lemma AddedMore(asks: seq<Ask>, a: Ask, r: Rid)
    ensures Added(asks + [a], r) <==> Added(asks, r) || (a.Add? && a.r == r)
  {
    assert (asks + [a])[|asks|] == a;
    if Added(asks, r) {
      var i :| 0 <= i < |asks| && asks[i].r == r && asks[i].Add?;
      assert (asks + [a])[i] == asks[i];
    }
  }

  /** The state in which the requests `asks` have been made. */
  ghost predicate Stage(s: State, w: nat, asks: seq<Ask>, m: State) { Ready(m, w) && Asked(s, w, asks, m) }

  lemma {:induction false} GotOf(s: State, asks: seq<Ask>, r: Rid)
    ensures Reads(Got(s, asks), r) ==> exists i :: 0 <= i < |asks| && asks[i].r == r
    ensures Writes(Made(asks), r) ==> exists i :: 0 <= i < |asks| && asks[i].r == r && !asks[i].Get?
  {
    if asks != [] {
      var rest, a := asks[..|asks| - 1], asks[|asks| - 1];
      GotOf(s, rest, r);
      if Reads(Got(s, asks), r) && a.r != r {
        var i :| 0 <= i < |Got(s, asks)| && Got(s, asks)[i].r == r;
        assert Got(s, rest)[i].r == r;
      }
      if Writes(Made(asks), r) && (a.r != r || a.Get?) {
        var i :| 0 <= i < |Made(asks)| && Made(asks)[i].r == r;
        assert Made(rest)[i].r == r;
      }
    }
  }

  /** What request `a` finds in the way. */
  lemma AskFinds(s: State, w: nat, asks: seq<Ask>, a: Ask, m: State)
    requires Stage(s, w, asks, m) && CanAsk(s, asks, a)
    ensures a.Get? ==>
              && !Reads(m.workers[w].rset, a.r) && !Writes(m.workers[w].wset, a.r)
              && a.r in m.recs && m.recs[a.r] == s.recs[a.r]
    ensures a.Put? ==> !Writes(m.workers[w].wset, a.r) && a.r in m.recs && m.recs[a.r] == s.recs[a.r]
    ensures a.Add? ==> a.r !in m.recs
  {
    GotOf(s, asks, a.r);
  }

  lemma Grown(s: State, asks: seq<Ask>, a: Ask)
    ensures Got(s, asks + [a]) == Got(s, asks) + GotBy(s, a)
    ensures Made(asks + [a]) == Made(asks) + MadeBy(a)
  {
    assert (asks + [a])[..|asks + [a]| - 1] == asks;
  }

  lemma ReadsOne(s: State, w: nat, asks: seq<Ask>, r: Rid, m: State) returns (t: State)
    requires Reach(s, w, m) && Stage(s, w, asks, m) && CanAsk(s, asks, Get(r))
    ensures Reach(s, w, t) && Inv(t)
    ensures var k := m.workers[w];
            && r in s.recs
            && var el := RElem(r, s.recs[r].ver, Some(s.recs[r].body));
               t == m.(workers := m.workers[w := k.(rset := k.rset + [el])])
  {
    hide Reach, Inv;
    AskFinds(s, w, asks, Get(r), m);
    t := Take(s, w, m, ReadTid(w, r));
    t := Take(s, w, t, ReadCheck(w));
    t := Take(s, w, t, ReadBody(w));
  }

  lemma WritesOne(s: State, w: nat, asks: seq<Ask>, a: Ask, m: State) returns (t: State)
    requires Reach(s, w, m) && Stage(s, w, asks, m) && CanAsk(s, asks, a) && !a.Get?
    ensures Reach(s, w, t) && Inv(t)
    ensures var k := m.workers[w];
            if a.Put? then t == m.(workers := m.workers[w := k.(wset := k.wset + [WElem(a.r, a.op, a.val)])])
            else t == m.(workers := m.workers[w := k.(rset := k.rset + [RElem(a.r, ZERO, None)],
                                                      wset := k.wset + [WElem(a.r, Insert, a.val)])],
                         recs := m.recs[a.r := Rec(true, true, ZERO, a.val, Own(w))])
  {
    hide Reach, Inv;
    AskFinds(s, w, asks, a, m);
    t := Take(s, w, m, if a.Put? then AddWrite(w, a.r, a.op, a.val) else AddInsert(w, a.r, a.val));
  }

  /** A read keeps the stage. */
  lemma StageRead(s: State, w: nat, asks: seq<Ask>, r: Rid, m: State, t: State)
    requires Inv(t) && Stage(s, w, asks, m) && CanAsk(s, asks, Get(r))
    requires var k := m.workers[w];
             t == m.(workers := m.workers[w := k.(rset := k.rset + [RElem(r, s.recs[r].ver, Some(s.recs[r].body))])])
    ensures Stage(s, w, asks + [Get(r)], t)
  {
    ReadyRead(w, r, m, t);
    hide Ready, Inv, Added;
    Grown(s, asks, Get(r));
    assert Made(asks) + [] == Made(asks);
    forall q | q in t.recs && q !in s.recs ensures Added(asks + [Get(r)], q) {
      AddedMore(asks, Get(r), q);
    }
  }

  lemma ReadyRead(w: nat, r: Rid, m: State, t: State)
    requires Inv(t) && Ready(m, w) && r in m.recs && !m.recs[r].lock && Room(m.recs[r].ver, m.ge)
    requires var k := m.workers[w];
             t == m.(workers := m.workers[w := k.(rset := k.rset + [RElem(r, m.recs[r].ver, Some(m.recs[r].body))])])
    ensures Ready(t, w)
  {
    assert RInv(m, r);
    hide Inv;
  }

  /** And so does a write or deletion, */
  lemma StagePut(s: State, w: nat, asks: seq<Ask>, a: Ask, m: State, t: State)
    requires Inv(t) && Stage(s, w, asks, m) && CanAsk(s, asks, a) && a.Put?
    requires var k := m.workers[w]; t == m.(workers := m.workers[w := k.(wset := k.wset + [WElem(a.r, a.op, a.val)])])
    ensures Stage(s, w, asks + [a], t)
  {
    ReadyPut(w, WElem(a.r, a.op, a.val), m, t);
    hide Ready, Inv, Added;
    Grown(s, asks, a);
    assert Got(s, asks) + [] == Got(s, asks);
    forall q | q in t.recs && q !in s.recs ensures Added(asks + [a], q) {
      AddedMore(asks, a, q);
    }
  }

  lemma ReadyPut(w: nat, el: WElem, m: State, t: State)
    requires Inv(t) && Ready(m, w) && el.r in m.recs && !m.recs[el.r].lock && Room(m.recs[el.r].ver, m.ge)
    requires var k := m.workers[w]; t == m.(workers := m.workers[w := k.(wset := k.wset + [el])])
    ensures Ready(t, w)
  {
    assert RInv(m, el.r);
    hide Inv;
  }

  /** and an insertion. */
  lemma StageAdd(s: State, w: nat, asks: seq<Ask>, a: Ask, m: State, t: State)
    requires Inv(t) && Stage(s, w, asks, m) && a.Add? && a.r !in m.recs
    requires var k := m.workers[w];
             t == m.(workers := m.workers[w := k.(rset := k.rset + [RElem(a.r, ZERO, None)],
                                                  wset := k.wset + [WElem(a.r, Insert, a.val)])],
                     recs := m.recs[a.r := Rec(true, true, ZERO, a.val, Own(w))])
    ensures Stage(s, w, asks + [a], t)
  {
    ReadyAdd(w, a.r, a.val, m, t);
    hide Ready, Inv, Added;
    Grown(s, asks, a);
    forall q | q in t.recs && q !in s.recs ensures Added(asks + [a], q) {
      AddedMore(asks, a, q);
    }
  }

  lemma ReadyAdd(w: nat, r: Rid, val: Val, m: State, t: State)
    requires Inv(t) && Ready(m, w) && r !in m.recs
    requires var k := m.workers[w];
             t == m.(workers := m.workers[w := k.(rset := k.rset + [RElem(r, ZERO, None)],
                                                  wset := k.wset + [WElem(r, Insert, val)])],
                     recs := m.recs[r := Rec(true, true, ZERO, val, Own(w))])
    ensures Ready(t, w)
  {
    assert m.ge >= 1;
    hide Inv;
  }

  /** One request more. */
  lemma AsksOne(s: State, w: nat, asks: seq<Ask>, a: Ask, m: State) returns (t: State)
    requires Inv(s) && Reach(s, w, m) && Stage(s, w, asks, m) && CanAsk(s, asks, a)
    ensures Reach(s, w, t) && Stage(s, w, asks + [a], t)
  {
    AskFinds(s, w, asks, a, m);
    hide Reach, Inv;
    if a.Get? {
      t := ReadsOne(s, w, asks, a.r, m);
      StageRead(s, w, asks, a.r, m, t);
    } else {
      t := WritesOne(s, w, asks, a, m);
      if a.Put? { StagePut(s, w, asks, a, m, t); } else { StageAdd(s, w, asks, a, m, t); }
    }
  }

  lemma {:induction false} AsksAll(s: State, w: nat, asks: seq<Ask>) returns (t: State)
    requires Inv(s) && CanAskAll(s, w, asks)
    ensures Reach(s, w, t) && Stage(s, w, asks, t)
  {
    hide Reach, Inv;
    if asks == [] {
      Here(s, w);
      t := Take(s, w, s, Begin(w));
    } else {
      hide Got, Made, Stage;
      var rest := asks[..|asks| - 1];
      assert forall i :: 0 <= i < |rest| ==> rest[..i] == asks[..i] && rest[i] == asks[i];
      t := AsksAll(s, w, rest);
      t := AsksOne(s, w, rest, asks[|asks| - 1], t);
      assert asks == rest + [asks[|asks| - 1]];
    }
  }

  /**
    A transaction alone commits. From any reachable state in which no other worker is in a transaction, a
    worker that first reads, writes, deletes and inserts any records that are not locked, and has room in
    the TID field, ends committed, as the last entry of the serial order, having read what the records
    showed; and its worker is idle again.
   */
  lemma AloneCommits(s0: State, run: seq<Event>, w: nat, asks: seq<Ask>) returns (more: seq<Event>)
    requires Initial(s0) && After(s0, run).Some? && CanAskAll(After(s0, run).value, w, asks)
    ensures (forall i :: 0 <= i < |more| ==> more[i].w == w) && After(s0, run + more).Some?
    ensures var s, t := After(s0, run).value, After(s0, run + more).value;
            w < |t.workers| && t.workers[w].phase.Idle? && Committing(s.order, t, Got(s, asks), Made(asks), w)
  {
    Always(s0, run);
    var s := After(s0, run).value;
    var t := AsksAll(s, w, asks);
    t := FinishesAlone(s, w, t);
    more :| Leads(s, w, more, t);
    AfterJoin(s0, run, more);
  }

  lemma {:induction false} AfterJoin(s: State, a: seq<Event>, b: seq<Event>)
    requires After(s, a).Some?
    ensures After(s, a + b) == After(After(s, a).value, b)
  {
    if b == [] {
      assert a + b == a;
    } else {
      AfterJoin(s, a, b[..|b| - 1]);
      assert (a + b)[..|a + b| - 1] == a + b[..|b| - 1];
    }
  }
}
