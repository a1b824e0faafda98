/**
  The Silo commit and epoch protocol (server/enclave/silo_cc/silo_transaction.cpp,
  silo_util.cpp) as a step system over any number of workers and records.

  Every atomic access to shared memory is a step of its own: the two TID loads and the body load of
  a read, each lock acquisition, the load of GlobalEpoch and the store of ThLocalEpoch, each
  validation load, each body store and each TID store, each release, and every load of the leader's
  scan over ThLocalEpoch.  Steps of different workers interleave freely.

  `State.order` and `Rec.owner` are history variables: no step reads them.  `order` lists
  transactions by the moment they loaded the epoch with their write locks held.
 */
module Silo {
  import opened Base
  import opened Tid

  type Rid = nat
  type Val = string

  datatype Op = Write | Insert | Delete
  datatype WElem = WElem(r: Rid, op: Op, val: Val)
  /** A read-set element and the value it returned; `None` stands for the absent record an insert reserves. */
  datatype RElem = RElem(r: Rid, ver: Ver, val: Option<Val>)

  datatype Owner = Free | Own(w: nat) | Orphan
  datatype Rec = Rec(lock: bool, absent: bool, ver: Ver, body: Val, owner: Owner)

  datatype Phase =
    | Idle
    | Leading(i: nat, now: nat)      // worker 0: ThLocalEpoch[1..i] equal to the epoch `now` it loaded
    | Refreshing                     // epochWork: about to load GlobalEpoch
    | Refreshed                      // epochWork: loaded, ThLocalEpoch not yet stored
    | Exec                           // between two operations of a transaction
    | Checking(r: Rid, ver: Ver)     // read: first TID load done
    | Fetching(r: Rid, ver: Ver)     // read: second TID load agreed, body not yet loaded
    | Locking(i: nat)                // wset[..i] locked
    | Locked
    | Loaded                         // validation: GlobalEpoch loaded, ThLocalEpoch not yet stored
    | Validating(j: nat)             // rset[..j] validated
    | Logging                        // commit TID chosen
    | Installing(i: nat, dirty: bool)// wset[..i] installed; dirty: the body of wset[i] is stored
    | Unlocking(i: nat, n: nat)      // releasing wset[i..n]
    | Dropping(i: nat)               // abort: removing the inserted records of wset[i..]

  datatype Worker = Worker(phase: Phase, rset: seq<RElem>, wset: seq<WElem>,
                           maxr: Ver, maxw: Ver, mrc: Ver,
                           epoch: nat, local: nat, pos: nat)

  datatype Status = Pending | Committed | Aborted
  datatype Entry = Entry(w: nat, status: Status, rset: seq<RElem>, wset: seq<WElem>, ver: Ver, epoch: nat)

  datatype State = State(ge: nat, workers: seq<Worker>, recs: map<Rid, Rec>,
                         init: map<Rid, Val>, order: seq<Entry>)

  datatype Event =
    | EwBegin(w: nat, lead: bool) | Lead(w: nat) | EwLoad(w: nat) | EwStore(w: nat)
    | Begin(w: nat)
    | ReadTid(w: nat, r: Rid) | ReadCheck(w: nat) | ReadBody(w: nat)
    | AddWrite(w: nat, r: Rid, op: Op, val: Val) | AddInsert(w: nat, r: Rid, val: Val)
    | GiveUp(w: nat)
    | LockBegin(w: nat) | LockNext(w: nat)
    | LoadEpoch(w: nat) | StoreEpoch(w: nat)
    | ValidateNext(w: nat) | Commit(w: nat) | Logged(w: nat)
    | InstallNext(w: nat) | UnlockNext(w: nat) | DropNext(w: nat)

  // ---------------------------------------------------------------- helpers

  predicate Writes(ws: seq<WElem>, r: Rid) {
    exists k :: 0 <= k < |ws| && ws[k].r == r
  }

  predicate Reads(rs: seq<RElem>, r: Rid) {
    exists i :: 0 <= i < |rs| && rs[i].r == r
  }

  predicate Distinct(ws: seq<WElem>) {
    forall a, b :: 0 <= a < b < |ws| ==> ws[a].r != ws[b].r
  }

  function Present(rec: Rec): Option<Val> { if rec.absent then None else Some(rec.body) }

  function Put(s: State, w: nat, k: Worker): State
    requires w < |s.workers|
  {
    s.(workers := s.workers[w := k])
  }

  function PutRec(s: State, w: nat, k: Worker, r: Rid, rec: Rec): State
    requires w < |s.workers|
  {
    s.(workers := s.workers[w := k], recs := s.recs[r := rec])
  }

  function Rest(k: Worker): Worker { k.(phase := Idle, rset := [], wset := []) }

  // ---------------------------------------------------------------- initial states

  const FRESH: Worker := Worker(Idle, [], [], ZERO, ZERO, ZERO, 0, 0, 0)

  /** `n` idle workers over the records left by recovery; ThLocalEpoch starts at 0. */
  ghost predicate Initial(s: State) {
    && s.ge >= 1
    && (forall w :: 0 <= w < |s.workers| ==> s.workers[w] == FRESH)
    && s.recs == (map r | r in s.init :: Rec(false, false, ZERO, s.init[r], Free))
    && s.order == []
  }

  // ---------------------------------------------------------------- steps

  /** When worker `e.w` can take step `e`. */
  predicate Enabled(s: State, e: Event) {
    e.w < |s.workers| &&
    var k := s.workers[e.w];
    match e
    case EwBegin(w, lead) => k.phase.Idle? && (lead ==> w == 0)
    case Lead(w) => k.phase.Leading?
    case EwLoad(w) => k.phase.Refreshing?
    case EwStore(w) => k.phase.Refreshed?
    case Begin(w) => k.phase.Idle?
    // first reads only; a locked record makes the load spin, an absent one ends the operation
    case ReadTid(w, r) => k.phase.Exec? && r in s.recs && !s.recs[r].lock && !s.recs[r].absent
                          && !Reads(k.rset, r) && !Writes(k.wset, r)
    case ReadCheck(w) => k.phase.Checking? && k.phase.r in s.recs
    case ReadBody(w) => k.phase.Fetching? && k.phase.r in s.recs
    case AddWrite(w, r, op, val) => k.phase.Exec? && !op.Insert? && r in s.recs && !Writes(k.wset, r)
    case AddInsert(w, r, val) => k.phase.Exec? && r !in s.recs
    case GiveUp(w) => k.phase.Exec?
    case LockBegin(w) => k.phase.Exec?
    case LockNext(w) => k.phase.Locking? && k.phase.i <= |k.wset| && (k.phase.i < |k.wset| ==>
        k.wset[k.phase.i].r in s.recs)
    case LoadEpoch(w) => k.phase.Locked?
    case StoreEpoch(w) => k.phase.Loaded?
    case ValidateNext(w) => k.phase.Validating? && k.phase.j < |k.rset| && k.rset[k.phase.j].r in s.recs
                            && k.pos < |s.order|
    // the 29-bit TID field must not wrap
    case Commit(w) => k.phase.Validating? && k.phase.j == |k.rset| && k.pos < |s.order|
                      && Room(Later(k.maxr, k.maxw), k.local) && Room(k.mrc, k.local)
    case Logged(w) => k.phase.Logging?
    case InstallNext(w) => k.phase.Installing? && k.phase.i <= |k.wset| && (k.phase.i < |k.wset| ==>
        k.wset[k.phase.i].r in s.recs)
    case UnlockNext(w) => k.phase.Unlocking? && k.phase.i <= k.phase.n <= |k.wset| && (k.phase.i < k.phase.n ==>
        k.wset[k.phase.i].r in s.recs)
    case DropNext(w) => k.phase.Dropping? && k.phase.i <= |k.wset| && (k.phase.i < |k.wset| ==>
        k.wset[k.phase.i].r in s.recs)
  }

  /** The state after step `e`. */
  function Step(s: State, e: Event): State
    requires Enabled(s, e)
  {
    var w := e.w;
    var k := s.workers[w];
    match e
    case EwBegin(_, lead) => Put(s, w, k.(phase := if lead then Leading(1, s.ge) else Refreshing))
    case Lead(_) => StepLead(s, w)
    case EwLoad(_) => Put(s, w, k.(phase := Refreshed, epoch := s.ge))
    case EwStore(_) => Put(s, w, k.(phase := Idle, local := k.epoch))
    case Begin(_) => Put(s, w, k.(phase := Exec, rset := [], wset := [], maxr := ZERO, maxw := ZERO))
    case ReadTid(_, r) => Put(s, w, k.(phase := Checking(r, s.recs[r].ver)))
    case ReadCheck(_) => StepReadCheck(s, w)
    case ReadBody(_) =>
      Put(s, w, k.(phase := Exec, rset := k.rset + [RElem(k.phase.r, k.phase.ver, Some(s.recs[k.phase.r].body))]))
    case AddWrite(_, r, op, val) => Put(s, w, k.(wset := k.wset + [WElem(r, op, val)]))
    case AddInsert(_, r, val) =>
      PutRec(s, w, k.(rset := k.rset + [RElem(r, ZERO, None)], wset := k.wset + [WElem(r, Insert, val)]),
             r, Rec(true, true, ZERO, val, Own(w)))
    case GiveUp(_) => Put(s, w, k.(phase := Dropping(0)))
    case LockBegin(_) => Put(s, w, k.(phase := Locking(0)))
    case LockNext(_) => StepLock(s, w)
    case LoadEpoch(_) =>
      Put(s, w, k.(phase := Loaded, epoch := s.ge, pos := |s.order|))
      .(order := s.order + [Entry(w, Pending, k.rset, k.wset, ZERO, s.ge)])
    case StoreEpoch(_) => Put(s, w, k.(phase := Validating(0), local := k.epoch))
    case ValidateNext(_) => StepValidate(s, w)
    case Commit(_) => StepCommit(s, w)
    case Logged(_) => Put(s, w, k.(phase := Installing(0, false)))
    case InstallNext(_) => StepInstall(s, w)
    case UnlockNext(_) => StepUnlock(s, w)
    case DropNext(_) => StepDrop(s, w)
  }

  /** One load of chkEpochLoaded, or the increment once every other worker was seen in `now`. */
  function StepLead(s: State, w: nat): State
    requires w < |s.workers| && s.workers[w].phase.Leading?
  {
    var k := s.workers[w];
    if k.phase.i >= |s.workers| then Put(s, w, k.(phase := Refreshing)).(ge := s.ge + 1)
    else if s.workers[k.phase.i].local == k.phase.now then Put(s, w, k.(phase := Leading(k.phase.i + 1, k.phase.now)))
    else Put(s, w, k.(phase := Refreshing))
  }

  /** The second TID load of read_internal: agree, retry with the newer word, or spin again. */
  function StepReadCheck(s: State, w: nat): State
    requires w < |s.workers| && s.workers[w].phase.Checking? && s.workers[w].phase.r in s.recs
  {
    var k := s.workers[w];
    var rec := s.recs[k.phase.r];
    if rec.lock || rec.absent then Put(s, w, k.(phase := Exec))
    else if rec.ver == k.phase.ver then Put(s, w, k.(phase := Fetching(k.phase.r, k.phase.ver)))
    else Put(s, w, k.(phase := Checking(k.phase.r, rec.ver)))
  }

  /** lockWriteSet, one element.  A record locked by anyone aborts the transaction. */
  function StepLock(s: State, w: nat): State
    requires w < |s.workers| && s.workers[w].phase.Locking? && s.workers[w].phase.i <= |s.workers[w].wset|
    requires s.workers[w].phase.i < |s.workers[w].wset| ==> s.workers[w].wset[s.workers[w].phase.i].r in s.recs
  {
    var k := s.workers[w];
    var i := k.phase.i;
    if i == |k.wset| then Put(s, w, k.(phase := Locked))
    else if k.wset[i].op.Insert? then Put(s, w, k.(phase := Locking(i + 1)))
    else
      var rec := s.recs[k.wset[i].r];
      if rec.lock then Put(s, w, k.(phase := Unlocking(0, i)))
      else PutRec(s, w, k.(phase := Locking(i + 1), maxw := Later(k.maxw, rec.ver)),
                  k.wset[i].r, rec.(lock := true, owner := Own(w)))
  }

  /** validationPhase, one read-set element. */
  function StepValidate(s: State, w: nat): State
    requires w < |s.workers| && s.workers[w].phase.Validating? && s.workers[w].phase.j < |s.workers[w].rset|
    requires s.workers[w].rset[s.workers[w].phase.j].r in s.recs && s.workers[w].pos < |s.order|
  {
    var k := s.workers[w];
    var el := k.rset[k.phase.j];
    var rec := s.recs[el.r];
    if rec.ver != el.ver || (rec.lock && !Writes(k.wset, el.r)) then
      Put(s, w, k.(phase := Unlocking(0, |k.wset|))).(order := s.order[k.pos := s.order[k.pos].(status := Aborted)])
    else
      Put(s, w, k.(phase := Validating(k.phase.j + 1), maxr := Later(k.maxr, rec.ver)))
  }

  /** End of validation and the choice of the commit TID. */
  function StepCommit(s: State, w: nat): State
    requires w < |s.workers| && s.workers[w].pos < |s.order|
  {
    var k := s.workers[w];
    var v := CommitVer(k.maxr, k.maxw, k.mrc, k.local);
    Put(s, w, k.(phase := Logging, mrc := v))
    .(order := s.order[k.pos := s.order[k.pos].(status := Committed, ver := v)])
  }

  /** writePhase: a WRITE stores the body and then the TID word; INSERT and DELETE store the TID word. */
  function StepInstall(s: State, w: nat): State
    requires w < |s.workers| && s.workers[w].phase.Installing? && s.workers[w].phase.i <= |s.workers[w].wset|
    requires s.workers[w].phase.i < |s.workers[w].wset| ==> s.workers[w].wset[s.workers[w].phase.i].r in s.recs
  {
    var k := s.workers[w];
    var i := k.phase.i;
    if i == |k.wset| then Put(s, w, Rest(k))
    else
      var el := k.wset[i];
      var rec := s.recs[el.r];
      if el.op.Write? && !k.phase.dirty then
        PutRec(s, w, k.(phase := Installing(i, true)), el.r, rec.(body := el.val))
      else
        PutRec(s, w, k.(phase := Installing(i + 1, false)), el.r,
               rec.(lock := false, absent := el.op.Delete?, ver := k.mrc, owner := Free))
  }

  /** unlockWriteSet, one element; inserted records are skipped. */
  function StepUnlock(s: State, w: nat): State
    requires w < |s.workers| && s.workers[w].phase.Unlocking?
          && s.workers[w].phase.i <= s.workers[w].phase.n <= |s.workers[w].wset|
    requires s.workers[w].phase.i < s.workers[w].phase.n ==> s.workers[w].wset[s.workers[w].phase.i].r in s.recs
  {
    var k := s.workers[w];
    var i := k.phase.i;
    if i == k.phase.n then Put(s, w, k.(phase := Dropping(0)))
    else if k.wset[i].op.Insert? then Put(s, w, k.(phase := Unlocking(i + 1, k.phase.n)))
    else PutRec(s, w, k.(phase := Unlocking(i + 1, k.phase.n)), k.wset[i].r,
                s.recs[k.wset[i].r].(lock := false, owner := Free))
  }

  /** abort: the inserted records leave the index; nobody ever unlocks them. */
  function StepDrop(s: State, w: nat): State
    requires w < |s.workers| && s.workers[w].phase.Dropping? && s.workers[w].phase.i <= |s.workers[w].wset|
    requires s.workers[w].phase.i < |s.workers[w].wset| ==> s.workers[w].wset[s.workers[w].phase.i].r in s.recs
  {
    var k := s.workers[w];
    var i := k.phase.i;
    if i == |k.wset| then Put(s, w, Rest(k))
    else if !k.wset[i].op.Insert? then Put(s, w, k.(phase := Dropping(i + 1)))
    else PutRec(s, w, k.(phase := Dropping(i + 1)), k.wset[i].r, s.recs[k.wset[i].r].(owner := Orphan))
  }

  /** The state reached by a run, if every step of it was enabled. */
  function After(s: State, run: seq<Event>): Option<State> {
    if run == [] then Some(s)
    else
      match After(s, run[..|run| - 1])
      case None => None
      case Some(mid) =>
        if Enabled(mid, run[|run| - 1]) then Some(Step(mid, run[|run| - 1])) else None
  }
}
