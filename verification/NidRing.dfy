/**
  The notification ring of a logger (server/enclave/silo_cc/silo_notifier.cpp, NidBuffer): a linked list
  of buckets in epoch order whose emptied front nodes are recycled behind its end.
 */
module NidRing {
  /** A notification id. */
  type Id = nat

  datatype Bucket = Bucket(epoch: nat, ids: seq<Id>)

  predicate Ascending(bs: seq<Bucket>) { forall i, j :: 0 <= i < j < |bs| ==> bs[i].epoch < bs[j].epoch }

  /** The ids waiting for epoch `e`. */
  function IdsAt(bs: seq<Bucket>, e: nat): seq<Id> {
    if bs == [] then [] else if bs[0].epoch == e then bs[0].ids else IdsAt(bs[1..], e)
  }

  /** All ids waiting for epochs up to `d`, epoch by epoch. */
  function Due(bs: seq<Bucket>, d: nat): seq<Id> {
    if bs == [] then [] else (if bs[0].epoch <= d then bs[0].ids else []) + Due(bs[1..], d)
  }

  lemma {:induction false} IdsAtIs(bs: seq<Bucket>, i: nat)
    requires Ascending(bs) && i < |bs|
    ensures IdsAt(bs, bs[i].epoch) == bs[i].ids
  {
    if i > 0 {
      IdsAtIs(bs[1..], i - 1);
    }
  }

  lemma {:induction false} IdsAtNone(bs: seq<Bucket>, e: nat)
    requires forall i :: 0 <= i < |bs| && bs[i].epoch == e ==> bs[i].ids == []
    ensures IdsAt(bs, e) == []
  {
    if bs != [] && bs[0].epoch != e {
      IdsAtNone(bs[1..], e);
    }
  }

  class NidBufferItem {
    var epoch: nat
    var buffer: seq<Id>
    var next: NidBufferItem?

    constructor (epoch: nat)
      ensures this.epoch == epoch && buffer == [] && next == null
    {
      this.epoch, buffer, next := epoch, [], null;
    }
  }

  class NidBuffer {
    var front: NidBufferItem
    var end: NidBufferItem
    /** The items from front to end. */
    ghost var items: seq<NidBufferItem>
    ghost var repr: set<NidBufferItem>

    ghost predicate Linked()
      reads this, items
    {
      && items != [] && front == items[0] && end == items[|items| - 1] && end.next == null
      && (forall i :: 0 <= i < |items| - 1 ==> items[i].next == items[i + 1])
      && (forall i, j :: 0 <= i < j < |items| ==> items[i] != items[j])
      && (forall x :: x in items ==> x in repr)
    }

    ghost function Buckets(): (bs: seq<Bucket>)
      reads this, items
      ensures |bs| == |items|
      ensures forall i :: 0 <= i < |bs| ==> bs[i] == Bucket(items[i].epoch, items[i].buffer)
    {
      seq(|items|, i requires 0 <= i < |items| reads this, items => Bucket(items[i].epoch, items[i].buffer))
    }

    /** Acyclic, ending at `end`, and strictly sorted by epoch. */
    ghost predicate Valid()
      reads this, items
    {
      Linked() && Ascending(Buckets())
    }

    constructor ()
      ensures Valid() && Buckets() == [Bucket(0, [])]
      ensures fresh(repr)
    {
      var item := new NidBufferItem(0);
      front, end, items, repr := item, item, [item], {item};
    }

    /** A new bucket behind the end. */
    method Append(epoch: nat)
      requires Linked()
      modifies this, repr
      ensures Linked() && items == old(items) + [end] && fresh(end) && repr == old(repr) + {end}
      ensures Buckets() == old(Buckets()) + [Bucket(epoch, [])]
    {
      ghost var bs := Buckets();
      var item := new NidBufferItem(epoch);
      end.next := item;
      end := item;
      items, repr := items + [item], repr + {item};
      assert forall i :: 0 <= i < |bs| ==> Buckets()[i] == bs[i];
    }

    /** The last item is the only one without a successor. */
    lemma NextOf(k: nat)
      requires Linked() && k < |items|
      ensures items[k].next == if k == |items| - 1 then null else items[k + 1]
    {
    }

    /** The search of store: the first bucket not before `epoch`, made at the end if there is none. */
    method FindOrAppend(epoch: nat) returns (itr: NidBufferItem, ghost k: nat)
      requires Valid()
      modifies this, repr
      ensures Linked() && k < |items| && itr == items[k] && itr.epoch >= epoch
      ensures fresh(repr - old(repr))
      ensures k <= |old(items)| && forall i :: 0 <= i < k ==> old(Buckets())[i].epoch < epoch
      ensures if k == |old(items)| then Buckets() == old(Buckets()) + [Bucket(epoch, [])]
            else Buckets() == old(Buckets())
    {
      ghost var bs := Buckets();
      k := 0;
      itr := front;
      while itr.epoch < epoch
        invariant k < |items| == |bs| && itr == items[k] && Linked() && items == old(items) && repr == old(repr)
              && Buckets() == bs && end == old(end)
        invariant forall i :: 0 <= i < k ==> bs[i].epoch < epoch
        decreases |bs| - k
      {
        assert bs[k].epoch == itr.epoch;
        NextOf(k);
        if itr.next == null {
          Append(epoch);
          itr, k := end, k + 1;
          return;
        }
        itr := itr.next;
        k := k + 1;
      }
    }

    /** The ids go to the bucket found. */
    method Fill(itr: NidBufferItem, ghost k: nat, ids: seq<Id>)
      requires Linked() && k < |items| && itr == items[k]
      modifies itr
      ensures Linked() && items == old(items) && repr == old(repr)
      ensures Buckets() == old(Buckets())[k := Bucket(old(itr.epoch), old(itr.buffer) + ids)]
    {
      ghost var found := Buckets();
      itr.buffer := itr.buffer + ids;
      assert forall i :: 0 <= i < |items| && i != k ==> items[i] != itr;
      assert Buckets() == found[k := Bucket(itr.epoch, found[k].ids + ids)];
    }

    /** store; `asserted`: the bucket found is the epoch's own, as the source asserts. */
    method Store(ids: seq<Id>, epoch: nat) returns (asserted: bool)
      requires Valid()
      modifies this, repr
      ensures Valid() && fresh(repr - old(repr))
      ensures Buckets() == Put(old(Buckets()), ids, epoch)
      ensures asserted <==> Accepts(old(Buckets()), epoch)
    {
      ghost var bs := Buckets();
      var itr, k := FindOrAppend(epoch);
      ghost var found := Buckets();
      assert found[k] == Bucket(itr.epoch, itr.buffer);
      PutFound(bs, found, ids, epoch, k);
      asserted := itr.epoch == epoch;
      Fill(itr, k, ids);
    }

    /**
      One round of notify: the front bucket is delivered and emptied, and its node goes behind the end with
      the next epoch.
     */
    method DeliverFront() returns (ids: seq<Id>, alone: bool)
      requires Linked()
      modifies this, repr
      ensures Linked() && repr == old(repr) && ids == old(Buckets())[0].ids && (alone <==> |old(items)| == 1)
      ensures alone ==> items == old(items) && Buckets() == [Bucket(old(Buckets())[0].epoch, [])]
      ensures !alone ==> items == old(items[1..] + [items[0]])
      ensures !alone ==> Buckets() == old(Buckets())[1..] + [Bucket(old(Buckets())[|items| - 1].epoch + 1, [])]
    {
      ghost var was := Buckets();
      NextOf(0);
      ids := front.buffer;
      front.buffer := [];
      alone := front.next == null;
      if !alone {
        assert items[0] != items[|items| - 1] && was[|items| - 1].epoch == end.epoch;
        front.epoch := end.epoch + 1;
        end.next := front;
        end := front;
        front := front.next;
        end.next := null;
        items := items[1..] + [items[0]];
        assert forall i :: 0 <= i < |items| - 1 ==> Buckets()[i] == was[i + 1];
        assert Buckets()[|items| - 1] == Bucket(was[|items| - 1].epoch + 1, []);
      }
    }

    /** The ring as notify finds it after `k` rounds, with what was delivered in them. */
    ghost predicate Turned(bs: seq<Bucket>, o: seq<NidBufferItem>, k: nat, minDl: nat, delivered: seq<Id>)
      reads this, items
    {
      && k <= |o| == |bs| && o != [] && Linked() && items == Spin(o, k) && Buckets() == Rotated(bs, k)
      && delivered == Due(bs[..k], minDl) && forall i :: 0 <= i < k ==> bs[i].epoch <= minDl
    }

    /** The front of the ring after `k` rounds. */
    lemma FrontAfter(bs: seq<Bucket>, o: seq<NidBufferItem>, k: nat, minDl: nat, delivered: seq<Id>)
      requires Turned(bs, o, k, minDl, delivered)
      ensures k <= |o| == |bs| && o != [] && front == o[if k < |o| then k else 0]
      ensures k < |bs| ==> front.epoch == bs[k].epoch
    {
      if k < |bs| { FrontIs(bs, k); }
      assert Buckets()[0].epoch == front.epoch;
    }

    lemma {:induction false} RoundBegins(bs: seq<Bucket>, o: seq<NidBufferItem>, k: nat, minDl: nat, before: seq<Id>)
      requires Turned(bs, o, k, minDl, before) && k < |o| && front.epoch <= minDl
      ensures Linked() && |items| == |bs| == |o| && |bs| >= 1 && Buckets()[0].ids == bs[k].ids
      ensures |bs| == 1 ==> items == Spin(o, k + 1) && [Bucket(Buckets()[0].epoch, [])] == Rotated(bs, k + 1)
      ensures |bs| >= 2 ==> items[1..] + [items[0]] == Spin(o, k + 1)
                            && Buckets()[1..] + [Bucket(Buckets()[|items| - 1].epoch + 1, [])] == Rotated(bs, k + 1)
      ensures (forall i :: 0 <= i < k + 1 ==> bs[i].epoch <= minDl) && before + bs[k].ids == Due(bs[..k + 1], minDl)
    {
      FrontAfter(bs, o, k, minDl, before);
      FrontIs(bs, k);
      RotatedNext(bs, k);
      SpinNext(o, k);
      DueNext(bs, minDl, k);
      hide Rotated, Spin, Due;
    }

    lemma RoundEnds(bs: seq<Bucket>, o: seq<NidBufferItem>, k: nat, minDl: nat, delivered: seq<Id>)
      requires k <= |o| == |bs| && o != [] && Linked() && items == Spin(o, k) && Buckets() == Rotated(bs, k)
      requires delivered == Due(bs[..k], minDl) && forall i :: 0 <= i < k ==> bs[i].epoch <= minDl
      ensures Turned(bs, o, k, minDl, delivered)
    {
    }

    /** The ring has come round when the first front is in front again. */
    lemma CameRound(bs: seq<Bucket>, o: seq<NidBufferItem>, k: nat, minDl: nat, delivered: seq<Id>)
      requires Turned(bs, o, k, minDl, delivered)
      ensures k <= |o| == |bs| && o != [] && (k > 0 ==> (front == o[0] <==> k == |o|))
    {
      FrontAfter(bs, o, k, minDl, delivered);
      if 0 < k < |o| {
        assert items[0] == o[k] && items[|o| - k] == o[0];
      }
    }

    /** One more round, while the front is due. */
    method Round(ghost bs: seq<Bucket>, ghost o: seq<NidBufferItem>, ghost k: nat, minDl: nat, before: seq<Id>)
      returns (delivered: seq<Id>, alone: bool)
      requires Turned(bs, o, k, minDl, before) && k < |o| && front.epoch <= minDl
      modifies this, repr
      ensures Turned(bs, o, k + 1, minDl, delivered) && repr == old(repr) && (alone <==> |bs| == 1)
    {
      RoundBegins(bs, o, k, minDl, before);
      hide *;
      var ids;
      ids, alone := DeliverFront();
      delivered := before + ids;
      RoundEnds(bs, o, k + 1, minDl, delivered);
    }

    lemma Begun(bs: seq<Bucket>, o: seq<NidBufferItem>, minDl: nat)
      requires Valid() && bs == Buckets() && o == items
      ensures Turned(bs, o, 0, minDl, []) && Ascending(bs) && o != [] && front == o[0]
    {
      DueStarts(bs, minDl);
      SpinStarts(o);
    }

    lemma Done(bs: seq<Bucket>, o: seq<NidBufferItem>, k: nat, minDl: nat, delivered: seq<Id>)
      requires Turned(bs, o, k, minDl, delivered) && Ascending(bs) && (k < |o| ==> front.epoch > minDl)
      ensures Valid() && multiset(items) == multiset(o) && delivered == Due(bs, minDl)
      ensures Buckets() == Rotated(bs, DueCount(bs, minDl))
    {
      FrontAfter(bs, o, k, minDl, delivered);
      AllDue(bs, k, minDl);
      RotatedAscends(bs, k);
      SpinKeeps(o, k);
      hide Rotated, Due, DueCount, Spin;
    }

    /**
      notify: as long as the front epoch is durable and the ring has not come round, deliver the front
      bucket and recycle its node.
     */
    method Notify(minDl: nat) returns (delivered: seq<Id>)
      requires Valid()
      modifies this, repr
      ensures Valid() && multiset(items) == multiset(old(items)) && repr == old(repr)
      ensures delivered == Due(old(Buckets()), minDl)
      ensures Buckets() == Rotated(old(Buckets()), DueCount(old(Buckets()), minDl))
    {
      ghost var bs, o, k := Buckets(), items, 0;
      var origFront := front;
      delivered := [];
      Begun(bs, o, minDl);
      hide *;
      while front.epoch <= minDl
        invariant Turned(bs, o, k, minDl, delivered) && k < |o| && repr == old(repr)
        decreases |o| - k
      {
        var alone;
        delivered, alone := Round(bs, o, k, minDl, delivered);
        k := k + 1;
        CameRound(bs, o, k, minDl, delivered);
        if alone || front == origFront {
          break;
        }
      }
      Done(bs, o, k, minDl, delivered);
    }
  }

  /** The nodes after `k` rounds. */
  ghost function Spin(o: seq<NidBufferItem>, k: nat): seq<NidBufferItem>
    requires k <= |o|
  {
    o[k..] + o[..k]
  }

  lemma SpinStarts(o: seq<NidBufferItem>)
    ensures Spin(o, 0) == o
  {
  }

  lemma SpinNext(o: seq<NidBufferItem>, k: nat)
    requires k < |o|
    ensures Spin(o, k) != [] && Spin(o, k)[1..] + [Spin(o, k)[0]] == Spin(o, k + 1) && |Spin(o, k)| == |o|
    ensures |o| == 1 ==> Spin(o, k) == Spin(o, k + 1)
  {
  }

  lemma SpinKeeps(o: seq<NidBufferItem>, k: nat)
    requires k <= |o|
    ensures multiset(Spin(o, k)) == multiset(o)
  {
    assert o == o[..k] + o[k..];
  }

  /** The epoch has a bucket, or lies beyond all of them. */
  predicate Accepts(bs: seq<Bucket>, epoch: nat) { Has(bs, epoch) || bs == [] || bs[|bs| - 1].epoch < epoch }

  lemma PutFound(bs: seq<Bucket>, found: seq<Bucket>, ids: seq<Id>, epoch: nat, k: nat)
    requires Ascending(bs) && k < |found| && k <= |bs| && found == (if k == |bs| then bs + [Bucket(epoch, [])] else bs)
    requires (forall i :: 0 <= i < k ==> bs[i].epoch < epoch) && found[k].epoch >= epoch
    ensures found[k := Bucket(found[k].epoch, found[k].ids + ids)] == Put(bs, ids, epoch)
          && Ascending(Put(bs, ids, epoch))
    ensures found[k].epoch == epoch <==> Accepts(bs, epoch)
  {
    PutIs(bs, ids, epoch, k);
    assert [] + ids == ids;
  }

  /** How many buckets at the front are due. */
  function DueCount(bs: seq<Bucket>, d: nat): (n: nat)
    ensures n <= |bs|
    ensures forall i :: 0 <= i < n ==> bs[i].epoch <= d
    ensures n < |bs| ==> bs[n].epoch > d
  {
    if bs == [] || bs[0].epoch > d then 0 else 1 + DueCount(bs[1..], d)
  }

  /** The buckets after the first `n` were emptied: a lone one stays, others go to the back with the next epochs. */
  function Rotated(bs: seq<Bucket>, n: nat): (r: seq<Bucket>)
    requires n <= |bs|
    ensures |r| == |bs|
  {
    if |bs| == 1 && n == 1 then [Bucket(bs[0].epoch, [])]
    else bs[n..] + seq(n, i requires 0 <= i < n => Bucket(bs[|bs| - 1].epoch + 1 + i, []))
  }

  /** The buckets with `ids` added to the first one not before `epoch`. */
  function Put(bs: seq<Bucket>, ids: seq<Id>, epoch: nat): seq<Bucket> {
    if bs == [] then [Bucket(epoch, ids)]
    else if bs[0].epoch >= epoch then [Bucket(bs[0].epoch, bs[0].ids + ids)] + bs[1..]
    else [bs[0]] + Put(bs[1..], ids, epoch)
  }

  lemma {:induction false} PutIs(bs: seq<Bucket>, ids: seq<Id>, epoch: nat, k: nat)
    requires k <= |bs| && (forall i :: 0 <= i < k ==> bs[i].epoch < epoch) && (k < |bs| ==> bs[k].epoch >= epoch)
    ensures Put(bs, ids, epoch)
          == if k == |bs| then bs + [Bucket(epoch, ids)] else bs[k := Bucket(bs[k].epoch, bs[k].ids + ids)]
  {
    if k > 0 {
      PutIs(bs[1..], ids, epoch, k - 1);
      assert bs == [bs[0]] + bs[1..];
    }
  }

  /** The epoch of the bucket that store finds or makes. */
  function Target(bs: seq<Bucket>, epoch: nat): (t: nat)
    ensures t >= epoch
  {
    if bs == [] then epoch else if bs[0].epoch >= epoch then bs[0].epoch else Target(bs[1..], epoch)
  }

  lemma {:induction false} TargetIs(bs: seq<Bucket>, epoch: nat)
    requires Ascending(bs)
    ensures Target(bs, epoch) == epoch <==> Accepts(bs, epoch)
  {
    if bs != [] && bs[0].epoch < epoch {
      TargetIs(bs[1..], epoch);
      assert bs == [bs[0]] + bs[1..];
      if Has(bs[1..], epoch) {
        var i :| 0 <= i < |bs[1..]| && bs[1..][i].epoch == epoch;
        assert bs[i + 1].epoch == epoch;
      }
      if Has(bs, epoch) {
        var i :| 0 <= i < |bs| && bs[i].epoch == epoch;
        assert bs[1..][i - 1].epoch == epoch;
      }
    }
  }

  lemma {:induction false} PutAt(bs: seq<Bucket>, ids: seq<Id>, epoch: nat, e: nat)
    requires Ascending(bs)
    ensures IdsAt(Put(bs, ids, epoch), e) == if e == Target(bs, epoch) then IdsAt(bs, e) + ids else IdsAt(bs, e)
  {
    if bs == [] {
      assert [] + ids == ids;
    } else if bs[0].epoch < epoch {
      PutAt(bs[1..], ids, epoch, e);
    }
  }

  /**
    Storing adds the ids to their epoch and touches no other exactly if the epoch has a bucket or lies beyond
    all of them.
   */
  lemma PutAdds(bs: seq<Bucket>, ids: seq<Id>, epoch: nat)
    requires Ascending(bs) && ids != []
    ensures Accepts(bs, epoch) <==>
          forall e :: IdsAt(Put(bs, ids, epoch), e) == if e == epoch then IdsAt(bs, e) + ids else IdsAt(bs, e)
  {
    TargetIs(bs, epoch);
    forall e ensures IdsAt(Put(bs, ids, epoch), e)
        == if e == Target(bs, epoch) then IdsAt(bs, e) + ids else IdsAt(bs, e) {
      PutAt(bs, ids, epoch, e);
    }
    var t := Target(bs, epoch);
    if t != epoch {
      assert IdsAt(Put(bs, ids, epoch), t) == IdsAt(bs, t) + ids != IdsAt(bs, t);
    }
  }

  lemma DueStarts(bs: seq<Bucket>, d: nat)
    ensures Rotated(bs, 0) == bs && bs[..0] == [] && Due([], d) == []
  {
  }

  lemma Associate(a: seq<Id>, b: seq<Id>, c: seq<Id>)
    ensures a + (b + c) == (a + b) + c
  {
  }

  lemma {:induction false} DueConcat(a: seq<Bucket>, b: seq<Bucket>, d: nat)
    ensures Due(a + b, d) == Due(a, d) + Due(b, d)
  {
    if a == [] {
      assert a + b == b;
    } else {
      DueConcat(a[1..], b, d);
      Associate(if a[0].epoch <= d then a[0].ids else [], Due(a[1..], d), Due(b, d));
      assert (a + b)[1..] == a[1..] + b;
    }
  }

  lemma DueNext(bs: seq<Bucket>, d: nat, k: nat)
    requires k < |bs| && bs[k].epoch <= d
    ensures Due(bs[..k + 1], d) == Due(bs[..k], d) + bs[k].ids
  {
    DueConcat(bs[..k], [bs[k]], d);
    assert bs[..k + 1] == bs[..k] + [bs[k]];
    assert [bs[k]][1..] == [];
  }

  lemma FrontIs(bs: seq<Bucket>, k: nat)
    requires k < |bs|
    ensures Rotated(bs, k)[0] == bs[k] && |Rotated(bs, k)| == |bs|
  {
  }

  /** Bucket `i` after the first `n` of several were recycled. */
  function Turn(bs: seq<Bucket>, n: nat, i: nat): Bucket
    requires n <= |bs| && i < |bs|
  {
    if i < |bs| - n then bs[n + i] else Bucket(bs[|bs| - 1].epoch + 1 + (i - (|bs| - n)), [])
  }

  lemma RotatedAt(bs: seq<Bucket>, n: nat)
    requires n <= |bs| && |bs| >= 2
    ensures forall i {:trigger Rotated(bs, n)[i]} :: 0 <= i < |bs| ==> Rotated(bs, n)[i] == Turn(bs, n, i)
  {
  }

  lemma RotatedNext(bs: seq<Bucket>, k: nat)
    requires k < |bs|
    ensures var r := Rotated(bs, k);
            if |bs| >= 2 then r[1..] + [Bucket(r[|bs| - 1].epoch + 1, [])] == Rotated(bs, k + 1)
            else [Bucket(r[0].epoch, [])] == Rotated(bs, k + 1)
  {
    if |bs| >= 2 {
      RotatedAt(bs, k);
      RotatedAt(bs, k + 1);
      var r, r' := Rotated(bs, k), Rotated(bs, k + 1);
      hide Rotated;
      assert forall i :: 0 <= i < |bs| - 1 ==> r[1..][i] == r'[i];
    }
  }

  lemma {:induction false} AllDue(bs: seq<Bucket>, k: nat, d: nat)
    requires Ascending(bs) && k <= |bs|
          && (forall i :: 0 <= i < k ==> bs[i].epoch <= d) && (k < |bs| ==> bs[k].epoch > d)
    ensures DueCount(bs, d) == k && Due(bs, d) == Due(bs[..k], d)
  {
    DueConcat(bs[..k], bs[k..], d);
    assert bs == bs[..k] + bs[k..];
    NoneDue(bs[k..], d);
  }

  lemma {:induction false} NoneDue(bs: seq<Bucket>, d: nat)
    requires forall i :: 0 <= i < |bs| ==> bs[i].epoch > d
    ensures Due(bs, d) == []
  {
    if bs != [] { NoneDue(bs[1..], d); }
  }

  lemma RotatedAscends(bs: seq<Bucket>, k: nat)
    requires Ascending(bs) && k <= |bs|
    ensures Ascending(Rotated(bs, k))
  {
  }

  predicate Has(bs: seq<Bucket>, e: nat) { exists i :: 0 <= i < |bs| && bs[i].epoch == e }

  lemma {:induction false} IdsAtConcat(a: seq<Bucket>, b: seq<Bucket>, e: nat)
    ensures IdsAt(a + b, e) == if Has(a, e) then IdsAt(a, e) else IdsAt(b, e)
  {
    if a == [] {
      assert a + b == b;
    } else {
      assert (a + b)[1..] == a[1..] + b;
      if a[0].epoch != e {
        IdsAtConcat(a[1..], b, e);
        if Has(a, e) {
          var i :| 0 <= i < |a| && a[i].epoch == e;
          assert a[1..][i - 1] == a[i];
        }
        if Has(a[1..], e) {
          var i :| 0 <= i < |a[1..]| && a[1..][i].epoch == e;
          assert a[i + 1].epoch == e;
        }
      }
    }
  }

  /** The emptied buckets behind the others. */
  function Behind(bs: seq<Bucket>, n: nat): (r: seq<Bucket>)
    requires n <= |bs|
    ensures forall i :: 0 <= i < |r| ==> r[i].ids == []
  {
    if |bs| == 1 && n == 1 then [Bucket(bs[0].epoch, [])]
    else seq(n, i requires 0 <= i < n => Bucket(bs[|bs| - 1].epoch + 1 + i, []))
  }

  lemma RotatedIs(bs: seq<Bucket>, n: nat)
    requires n <= |bs|
    ensures Rotated(bs, n) == bs[n..] + Behind(bs, n)
  {
  }

  /** What notify(d) leaves: nothing for epochs up to `d`, everything for later ones. */
  lemma {:induction false} NotifyLeaves(bs: seq<Bucket>, d: nat, e: nat)
    requires Ascending(bs)
    ensures IdsAt(Rotated(bs, DueCount(bs, d)), e) == if e <= d then [] else IdsAt(bs, e)
  {
    var n := DueCount(bs, d);
    RotatedIs(bs, n);
    IdsAtNone(Behind(bs, n), e);
    hide Rotated, Behind;
    IdsAtConcat(bs[n..], Behind(bs, n), e);
    if e <= d {
      assert forall i :: 0 <= i < |bs[n..]| ==> bs[n..][i].epoch > d;
      IdsAtNone(bs[n..], e);
    } else {
      assert bs == bs[..n] + bs[n..];
      IdsAtConcat(bs[..n], bs[n..], e);
      if !Has(bs[n..], e) { IdsAtNone(bs[n..], e); }
    }
  }

  function AllIds(bs: seq<Bucket>): seq<Id> { if bs == [] then [] else bs[0].ids + AllIds(bs[1..]) }

  lemma {:induction false} AllIdsConcat(a: seq<Bucket>, b: seq<Bucket>)
    ensures AllIds(a + b) == AllIds(a) + AllIds(b)
  {
    if a == [] {
      assert a + b == b;
    } else {
      AllIdsConcat(a[1..], b);
      Associate(a[0].ids, AllIds(a[1..]), AllIds(b));
      assert (a + b)[1..] == a[1..] + b;
    }
  }

  lemma {:induction false} AllIdsEmpty(bs: seq<Bucket>)
    requires forall i :: 0 <= i < |bs| ==> bs[i].ids == []
    ensures AllIds(bs) == []
  {
    if bs != [] { AllIdsEmpty(bs[1..]); }
  }

  lemma {:induction false} DueIsAll(bs: seq<Bucket>, d: nat)
    requires forall i :: 0 <= i < |bs| ==> bs[i].epoch <= d
    ensures Due(bs, d) == AllIds(bs)
  {
    if bs != [] { DueIsAll(bs[1..], d); }
  }

  /** Conservation: what is delivered and what stays are together what was waiting, in order. */
  lemma {:induction false} NotifyConserves(bs: seq<Bucket>, d: nat)
    requires Ascending(bs)
    ensures Due(bs, d) + AllIds(Rotated(bs, DueCount(bs, d))) == AllIds(bs)
  {
    var n := DueCount(bs, d);
    AllDue(bs, n, d);
    DueIsAll(bs[..n], d);
    StaysIds(bs, n);
    hide Rotated, Behind, Due, AllIds, DueCount;
    AllIdsConcat(bs[..n], bs[n..]);
    assert bs == bs[..n] + bs[n..];
  }

  lemma StaysIds(bs: seq<Bucket>, n: nat)
    requires n <= |bs|
    ensures AllIds(Rotated(bs, n)) == AllIds(bs[n..])
  {
    RotatedIs(bs, n);
    AllIdsEmpty(Behind(bs, n));
    hide Rotated, Behind, AllIds;
    AllIdsConcat(bs[n..], Behind(bs, n));
    assert AllIds(bs[n..]) + [] == AllIds(bs[n..]);
  }
}
