/**
  The logger's queue (server/enclave/silo_cc/silo_log_queue.cpp): buffers by epoch, drained from the
  smallest epoch on.  The methods run under the queue's mutex, so the pipeline takes each as one step;
  here their loops are proved against the functions used there.
 */
module LogQueues {
  import opened Base
  import opened Pipeline

  lemma {:induction false} SmallestKey(keys: set<nat>) returns (m: nat)
    requires keys != {}
    ensures m in keys && forall e :: e in keys ==> m <= e
  {
    var k :| k in keys;
    if keys == {k} {
      m := k;
    } else {
      var rest := keys - {k};
      assert rest != {};
      var n := SmallestKey(rest);
      m := if k < n then k else n;
      assert keys == rest + {k};
    }
  }

  /** Nothing below `m`: the drain starts there. */
  lemma {:induction false} FlattenFrom(q: map<nat, seq<Buffer>>, m: nat, n: nat)
    requires m in q && (forall e :: e in q ==> m <= e) && m < n
    ensures FlattenTo(q, n) == q[m] + FlattenTo(q - {m}, n)
    decreases n
  {
    if n == m + 1 {
      FlattenNone(q, m);
      FlattenNone(q - {m}, m);
      assert [] + q[m] == q[m] + ([] + []);
    } else {
      FlattenFrom(q, m, n - 1);
    }
  }

  lemma {:induction false} FlattenNone(q: map<nat, seq<Buffer>>, n: nat)
    requires forall e :: e in q ==> n <= e
    ensures FlattenTo(q, n) == []
  {
    if n > 0 { FlattenNone(q, n - 1); }
  }

  class LogQueue {
    var queue: map<nat, seq<Buffer>>

    constructor ()
      ensures queue == map[]
    {
      queue := map[];
    }

    /** enq. */
    method Enqueue(x: Buffer)
      modifies this
      ensures queue == Enq(old(queue), x)
    {
      var v := if x.epoch in queue then queue[x.epoch] else [];
      v := v + [x];
      queue := queue[x.epoch := v];
    }

    /** deq: the entry with the smallest epoch is copied and erased until the map is empty. */
    method Dequeue(ghost n: nat) returns (ret: seq<Buffer>)
      requires forall e :: e in queue ==> e < n
      modifies this
      ensures ret == FlattenTo(old(queue), n) && queue == map[]
    {
      ret := [];
      FlattenStart(queue, n);
      while queue != map[]
        invariant forall e :: e in queue ==> e < n
        invariant ret + FlattenTo(queue, n) == FlattenTo(old(queue), n)
        decreases |queue.Keys|
      {
        assert queue.Keys != {};
        var smallest := SmallestKey(queue.Keys);
        var m :| m in queue && forall e :: e in queue ==> m <= e;
        FlattenFrom(queue, m, n);
        Associate(ret, queue[m], FlattenTo(queue - {m}, n));
        ret := ret + queue[m];
        assert (queue - {m}).Keys == queue.Keys - {m};
        queue := queue - {m};
      }
      FlattenStart(map[], n);
      FlattenNone(map[], n);
    }

    /** min_epoch: the first key, or `None` for the largest 64-bit value of an empty queue. */
    method MinEpoch() returns (m: Option<nat>)
      ensures m.None? <==> queue == map[]
      ensures m.Some? ==> m.value in queue && forall e :: e in queue ==> m.value <= e
      ensures forall cap: nat {:trigger QueueMin(queue, cap)} ::
                QueueMin(queue, cap) == if m.Some? && m.value < cap then m.value else cap
    {
      if queue == map[] {
        m := None;
      } else {
        assert queue.Keys != {};
        var smallest := SmallestKey(queue.Keys);
        var k :| k in queue && forall e :: e in queue ==> k <= e;
        m := Some(k);
      }
    }
  }

  lemma FlattenStart(q: map<nat, seq<Buffer>>, n: nat)
    ensures [] + FlattenTo(q, n) == FlattenTo(q, n)
  {
  }

  lemma Associate(a: seq<Buffer>, b: seq<Buffer>, c: seq<Buffer>)
    ensures a + (b + c) == a + b + c
  {
  }
}
