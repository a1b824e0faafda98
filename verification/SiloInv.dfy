/**
  The invariant of the commit protocol, in three parts: what each worker knows (`WInv`), what each
  record holds (`RInv`) and what each entry of the serial order promises (`OInv`).
 */
module SiloInv {
  import opened Base
  import opened Tid
  import opened Silo

  // ---------------------------------------------------------------- the serial order

  predicate CommittedWriter(e: Entry, r: Rid) { e.status.Committed? && Writes(e.wset, r) }

  /** The last committed writer of `r` among the first `n` entries, or -1. */
  function LastWriter(order: seq<Entry>, n: nat, r: Rid): (p: int)
    requires n <= |order|
    ensures -1 <= p < n
    ensures p >= 0 ==> CommittedWriter(order[p], r)
    ensures forall q :: p < q < n ==> !CommittedWriter(order[q], r)
  {
    if n == 0 then -1
    else if CommittedWriter(order[n - 1], r) then n - 1
    else LastWriter(order, n - 1, r)
  }

  /** What a write set leaves in record `r`. */
  function Effect(ws: seq<WElem>, r: Rid): Option<Val>
    requires Writes(ws, r)
  {
    var last := ws[|ws| - 1];
    if last.r == r then (if last.op.Delete? then None else Some(last.val))
    else Effect(ws[..|ws| - 1], r)
  }

  lemma {:induction false} EffectAt(ws: seq<WElem>, m: nat)
    requires Distinct(ws) && m < |ws|
    ensures Writes(ws, ws[m].r)
    ensures Effect(ws, ws[m].r) == if ws[m].op.Delete? then None else Some(ws[m].val)
  {
    assert ws[m].r == ws[m].r;
    if m < |ws| - 1 {
      EffectAt(ws[..|ws| - 1], m);
    }
  }

  /** The version and the value of `r` after the first `n` entries. */
  function VerAt(order: seq<Entry>, n: nat, r: Rid): Ver
    requires n <= |order|
  {
    var p := LastWriter(order, n, r);
    if p < 0 then ZERO else order[p].ver
  }

  function ValAt(init: map<Rid, Val>, order: seq<Entry>, n: nat, r: Rid): Option<Val>
    requires n <= |order|
  {
    var p := LastWriter(order, n, r);
    if p >= 0 then Effect(order[p].wset, r)
    else if r in init then Some(init[r]) else None
  }

  predicate Known(init: map<Rid, Val>, order: seq<Entry>, n: nat, r: Rid)
    requires n <= |order|
  {
    r in init || LastWriter(order, n, r) >= 0
  }

  // ---------------------------------------------------------------- locks

  /** Worker `k` holds the lock of its m-th write-set element. */
  predicate Holds(k: Worker, m: nat)
    requires m < |k.wset|
  {
    match k.phase
    case Exec => k.wset[m].op.Insert?
    case Checking(_, _) => k.wset[m].op.Insert?
    case Fetching(_, _) => k.wset[m].op.Insert?
    case Locking(i) => k.wset[m].op.Insert? || m < i
    case Locked => true
    case Loaded => true
    case Validating(_) => true
    case Logging => true
    case Installing(i, _) => i <= m
    case Unlocking(i, n) => k.wset[m].op.Insert? || i <= m < n
    case Dropping(i) => k.wset[m].op.Insert? && i <= m
    case _ => false
  }

  predicate HoldsRid(k: Worker, r: Rid) {
    exists m :: 0 <= m < |k.wset| && Holds(k, m) && k.wset[m].r == r
  }

  predicate Posted(ph: Phase) { ph.Loaded? || ph.Validating? || ph.Logging? || ph.Installing? }
  predicate InFlight(ph: Phase) { ph.Loaded? || ph.Validating? }
  predicate Chosen(ph: Phase) { ph.Logging? || ph.Installing? }
  predicate Resting(ph: Phase) { ph.Idle? || ph.Leading? || ph.Refreshing? || ph.Refreshed? }
  predicate Open(ph: Phase) {
    ph.Exec? || ph.Checking? || ph.Fetching? || ph.Locking? || ph.Locked? || InFlight(ph)
  }

  /** Record `r` belongs to a transaction whose commit TID is chosen but not yet in the record. */
  predicate Unsettled(s: State, r: Rid) {
    r in s.recs && s.recs[r].owner.Own? && s.recs[r].owner.w < |s.workers|
    && Chosen(s.workers[s.recs[r].owner.w].phase)
  }

  /** The body of `r` is already stored, its TID word is not. */
  predicate Dirty(s: State, r: Rid) {
    Unsettled(s, r) &&
    var k := s.workers[s.recs[r].owner.w];
    k.phase.Installing? && k.phase.dirty && k.phase.i < |k.wset| && k.wset[k.phase.i].r == r
  }

  /** How much of the serial order record `r` reflects. */
  function Settled(s: State, r: Rid): nat {
    if Unsettled(s, r) then s.workers[s.recs[r].owner.w].pos else |s.order|
  }

  // ---------------------------------------------------------------- workers

  ghost predicate WShape(k: Worker) {
    && Distinct(k.wset)
    && (Resting(k.phase) ==> k.wset == [] && k.rset == [])
    && (k.phase.Locking? ==> k.phase.i <= |k.wset|)
    && (k.phase.Validating? ==> k.phase.j <= |k.rset|)
    && (k.phase.Installing? ==>
        k.phase.i <= |k.wset| && (k.phase.dirty ==> k.phase.i < |k.wset| && k.wset[k.phase.i].op.Write?))
    && (k.phase.Unlocking? ==> k.phase.i <= k.phase.n <= |k.wset|)
    && (k.phase.Dropping? ==> k.phase.i <= |k.wset|)
  }

  ghost predicate WHolds(s: State, w: nat)
    requires w < |s.workers|
  {
    var k := s.workers[w];
    && (forall m :: 0 <= m < |k.wset| ==> k.wset[m].r in s.recs)
    && (forall m :: 0 <= m < |k.wset| && Holds(k, m) ==> s.recs[k.wset[m].r].owner == Own(w))
    && (forall m :: 0 <= m < |k.wset| && Holds(k, m) && k.wset[m].op.Insert? ==>
        s.recs[k.wset[m].r].body == k.wset[m].val)
    && (Open(k.phase) ==> forall m :: 0 <= m < |k.wset| && k.wset[m].op.Insert? ==>
          s.recs[k.wset[m].r].ver == ZERO && s.recs[k.wset[m].r].absent)
    && (k.phase.Installing? && k.phase.dirty && k.phase.i < |k.wset| ==>
        s.recs[k.wset[k.phase.i].r].body == k.wset[k.phase.i].val)
  }

  function Cap(s: State, k: Worker): nat { if Posted(k.phase) then k.epoch else s.ge }

  /** An element of an open read set: its version is not from the future, and if the version is still
      current and nobody is halfway through replacing it, the value returned is that version's. */
  ghost predicate ReadOk(s: State, e: RElem, cap: nat) {
    && e.r in s.recs && AtMost(e.ver, s.recs[e.r].ver) && e.ver.epoch <= cap
    && (s.recs[e.r].ver == e.ver && !Dirty(s, e.r) ==> e.val == Present(s.recs[e.r]))
  }

  ghost predicate ReadingOk(s: State, r: Rid, ver: Ver) {
    r in s.recs && AtMost(ver, s.recs[r].ver) && ver.epoch <= s.ge && (s.recs[r].ver == ver ==> !s.recs[r].absent)
  }

  ghost predicate Reserved(rset: seq<RElem>, r: Rid) {
    exists i :: 0 <= i < |rset| && rset[i] == RElem(r, ZERO, None)
  }

  ghost predicate WReads(s: State, w: nat)
    requires w < |s.workers|
  {
    var k := s.workers[w];
    Open(k.phase) ==>
      && (forall i :: 0 <= i < |k.rset| ==> ReadOk(s, k.rset[i], Cap(s, k)))
      && (k.phase.Checking? || k.phase.Fetching? ==> ReadingOk(s, k.phase.r, k.phase.ver))
      && (forall m :: 0 <= m < |k.wset| && k.wset[m].op.Insert? ==>
          k.wset[m].r !in s.init && Reserved(k.rset, k.wset[m].r))
  }

  ghost predicate WMax(s: State, w: nat)
    requires w < |s.workers| && WHolds(s, w)
  {
    var k := s.workers[w];
    && k.maxr.epoch <= Cap(s, k) && k.maxw.epoch <= Cap(s, k) && k.mrc.epoch <= Cap(s, k)
    && (k.phase.Validating? ==> forall i :: 0 <= i < k.phase.j && i < |k.rset| ==> AtMost(k.rset[i].ver, k.maxr))
    && (k.phase.Locking? || k.phase.Locked? || InFlight(k.phase) ==>
          forall m :: 0 <= m < |k.wset| && Holds(k, m) ==> AtMost(s.recs[k.wset[m].r].ver, k.maxw))
    && (k.phase.Locking? || k.phase.Locked? || k.phase.Unlocking? || InFlight(k.phase) ==>
          forall m :: 0 <= m < |k.wset| && Holds(k, m) && !k.wset[m].op.Insert? ==>
              Known(s.init, s.order, |s.order|, k.wset[m].r))
  }

  /** Read `e` of the entry at `p` agrees with the serial order before `p`, and nothing pending can change that. */
  ghost predicate Fixed(s: State, p: nat, e: RElem)
    requires p <= |s.order|
  {
    && e.val == ValAt(s.init, s.order, p, e.r)
    && e.ver == VerAt(s.order, p, e.r)
    && (forall q :: 0 <= q < p && s.order[q].status.Pending? ==> !Writes(s.order[q].wset, e.r))
  }

  ghost predicate WEntry(s: State, w: nat)
    requires w < |s.workers|
  {
    var k := s.workers[w];
    Posted(k.phase) ==>
      && k.pos < |s.order|
      && s.order[k.pos].w == w && s.order[k.pos].wset == k.wset && s.order[k.pos].rset == k.rset
      && s.order[k.pos].epoch == k.epoch && 1 <= k.epoch <= s.ge
      && (InFlight(k.phase) ==> s.order[k.pos].status.Pending?)
      && (Chosen(k.phase) ==> s.order[k.pos].status.Committed? && s.order[k.pos].ver == k.mrc)
      && (!k.phase.Loaded? ==> k.local == k.epoch)
      && (forall q :: k.pos < q < |s.order| ==> s.order[q].w != w)
  }

  ghost predicate WPost(s: State, w: nat)
    requires w < |s.workers| && WHolds(s, w) && WEntry(s, w)
  {
    var k := s.workers[w];
    Posted(k.phase) ==>
      // no later live entry writes what this worker still holds
      && (forall m, q :: 0 <= m < |k.wset| && Holds(k, m) && k.pos < q < |s.order| && !s.order[q].status.Aborted?
                         ==> !Writes(s.order[q].wset, k.wset[m].r))
      // later committed writers of what it read have later versions
      && (InFlight(k.phase) ==>
            forall i, q :: 0 <= i < |k.rset| && k.pos < q < |s.order| && CommittedWriter(s.order[q], k.rset[i].r)
                           ==> Below(k.rset[i].ver, s.order[q].ver))
      && (k.phase.Validating? ==> forall i :: 0 <= i < k.phase.j && i < |k.rset| ==> Fixed(s, k.pos, k.rset[i]))
      && (InFlight(k.phase) ==> forall m :: 0 <= m < |k.wset| && !k.wset[m].op.Insert? ==>
          Known(s.init, s.order, k.pos, k.wset[m].r))
      && (Chosen(k.phase) ==> forall m :: 0 <= m < |k.wset| && Holds(k, m) ==> Below(s.recs[k.wset[m].r].ver, k.mrc))
  }

  ghost predicate WInv(s: State, w: nat)
    requires w < |s.workers|
  {
    WShape(s.workers[w]) && WHolds(s, w) && WReads(s, w) && WMax(s, w) && WEntry(s, w) && WPost(s, w)
  }

  // ---------------------------------------------------------------- records

  ghost predicate RLock(s: State, r: Rid)
    requires r in s.recs
  {
    var rec := s.recs[r];
    && (rec.lock <==> !rec.owner.Free?)
    && (rec.owner.Own? ==> rec.owner.w < |s.workers| && HoldsRid(s.workers[rec.owner.w], r))
    && rec.ver.epoch <= s.ge
  }

  ghost predicate RVal(s: State, r: Rid)
    requires r in s.recs && Settled(s, r) <= |s.order|
  {
    var rec := s.recs[r];
    && rec.ver == VerAt(s.order, Settled(s, r), r)
    && (!Dirty(s, r) ==> Present(rec) == ValAt(s.init, s.order, Settled(s, r), r))
    && (!rec.lock ==> Known(s.init, s.order, |s.order|, r))
  }

  ghost predicate RInv(s: State, r: Rid)
    requires r in s.recs
  {
    RLock(s, r) && Settled(s, r) <= |s.order| && RVal(s, r)
  }

  // ---------------------------------------------------------------- entries

  ghost predicate OLive(s: State, p: nat)
    requires p < |s.order|
  {
    var e := s.order[p];
    && e.w < |s.workers| && Distinct(e.wset) && e.epoch <= s.ge
    && (e.status.Pending? ==> InFlight(s.workers[e.w].phase) && s.workers[e.w].pos == p)
    && (forall q :: 0 <= q < p ==> s.order[q].epoch <= e.epoch)
    && (forall m :: 0 <= m < |e.wset| ==> e.wset[m].r in s.recs)
  }

  ghost predicate OCommitted(s: State, p: nat)
    requires p < |s.order|
  {
    var e := s.order[p];
    e.status.Committed? ==>
      && e.w < |s.workers| && AtMost(e.ver, s.workers[e.w].mrc)
      && e.ver.epoch == e.epoch && e.epoch >= 1
      && (forall i :: 0 <= i < |e.rset| ==> Below(e.rset[i].ver, e.ver))
      && (forall q :: 0 <= q < p && s.order[q].status.Committed? && s.order[q].w == e.w ==>
          Below(s.order[q].ver, e.ver))
      && (forall i :: 0 <= i < |e.rset| ==> Fixed(s, p, e.rset[i]))
      && (forall m :: 0 <= m < |e.wset| ==>
            if e.wset[m].op.Insert? then !Known(s.init, s.order, p, e.wset[m].r)
                else Known(s.init, s.order, p, e.wset[m].r))
      // versions of a record grow along the serial order
      && (forall q, r :: 0 <= q < p && CommittedWriter(s.order[q], r) && CommittedWriter(e, r) ==>
          Below(s.order[q].ver, e.ver))
  }

  ghost predicate OInv(s: State, p: nat)
    requires p < |s.order|
  {
    OLive(s, p) && OCommitted(s, p)
  }

  ghost predicate Inv(s: State) {
    && s.ge >= 1 && (forall r :: r in s.init ==> r in s.recs)
    && (forall w {:trigger WInv(s, w)} :: 0 <= w < |s.workers| ==> WInv(s, w))
    && (forall r {:trigger RInv(s, r)} :: r in s.recs ==> RInv(s, r))
    && (forall p {:trigger OInv(s, p)} :: 0 <= p < |s.order| ==> OInv(s, p))
  }
}
