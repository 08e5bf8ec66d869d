/** The store's methods and its writer (store/store.go, store/writer.go), each a sequence of the steps of StoreRuns. */
module StoreWriter {
  import opened GraphState
  import opened Aggregates
  import opened StoreRuns

  const BATCH_SIZE := 5000
  const DRAIN_MAX := 20000

  // ---- how much may wait for a flush ----

  function Repeated(s: Step, n: nat): seq<Step> { seq(n, _ => s) }

  lemma {:induction false} OfferMore(settings: Settings, steps: seq<Step>, ev: Event, n: nat)
    requires settings.bucketSecs > 0 && After(settings, steps).Some?
    requires |After(settings, steps).value.queue| + n <= QUEUE_CAPACITY
    ensures var w, v := After(settings, steps).value, After(settings, steps + Repeated(Offer(ev), n));
      v.Some? && |v.value.queue| == |w.queue| + n && v.value.pending == w.pending && v.value.flying == w.flying
  {
    var all := steps + Repeated(Offer(ev), n);
    if n == 0 {
      assert all == steps;
    } else {
      OfferMore(settings, steps, ev, n - 1);
      hide After, Enabled, Next;
      var before := steps + Repeated(Offer(ev), n - 1);
      assert all == before + [Offer(ev)];
      OfferOne(settings, before, ev);
    }
  }

  lemma OfferOne(settings: Settings, steps: seq<Step>, ev: Event)
    requires settings.bucketSecs > 0 && After(settings, steps).Some?
    requires |After(settings, steps).value.queue| < QUEUE_CAPACITY
    ensures var w, v := After(settings, steps).value, After(settings, steps + [Offer(ev)]);
      v.Some? && |v.value.queue| == |w.queue| + 1 && v.value.pending == w.pending && v.value.flying == w.flying
  {
    var all := steps + [Offer(ev)];
    assert all[..|all| - 1] == steps && all[|all| - 1] == Offer(ev);
  }

  lemma {:induction false} ReceiveMore(settings: Settings, steps: seq<Step>, n: nat)
    requires settings.bucketSecs > 0 && After(settings, steps).Some?
    requires !After(settings, steps).value.flying && n <= |After(settings, steps).value.queue|
    ensures var w, v := After(settings, steps).value, After(settings, steps + Repeated(Receive, n));
      && v.Some? && !v.value.flying
      && |v.value.queue| == |w.queue| - n && |v.value.pending| == |w.pending| + n
  {
    var all := steps + Repeated(Receive, n);
    if n == 0 {
      assert all == steps;
    } else {
      ReceiveMore(settings, steps, n - 1);
      hide After, Enabled, Next;
      var before := steps + Repeated(Receive, n - 1);
      assert all == before + [Receive];
      ReceiveOne(settings, before);
    }
  }

  lemma ReceiveOne(settings: Settings, steps: seq<Step>)
    requires settings.bucketSecs > 0 && After(settings, steps).Some?
    requires !After(settings, steps).value.flying && After(settings, steps).value.queue != []
    ensures var w, v := After(settings, steps).value, After(settings, steps + [Receive]);
      && v.Some? && !v.value.flying
      && |v.value.queue| == |w.queue| - 1 && |v.value.pending| == |w.pending| + 1
  {
    var all := steps + [Receive];
    assert all[..|all| - 1] == steps && all[|all| - 1] == Receive;
  }

  /** One row short of a batch may be in hand while the queue is full: more than one flush drains. */
  lemma MoreThanAFlushDrains(settings: Settings, ev: Event)
    requires settings.bucketSecs > 0
    ensures var taken := Repeated(Offer(ev), BATCH_SIZE - 1) + Repeated(Receive, BATCH_SIZE - 1);
      var w := After(settings, taken + Repeated(Offer(ev), QUEUE_CAPACITY));
      && w.Some? && !w.value.flying && |w.value.pending| < BATCH_SIZE && |w.value.queue| == QUEUE_CAPACITY
      && |w.value.pending| + |w.value.queue| > DRAIN_MAX
  {
    var offered := Repeated(Offer(ev), BATCH_SIZE - 1);
    assert [] + offered == offered;
    NoSteps(settings);
    hide Repeated, After;
    OfferMore(settings, [], ev, BATCH_SIZE - 1);
    ReceiveMore(settings, offered, BATCH_SIZE - 1);
    OfferMore(settings, offered + Repeated(Receive, BATCH_SIZE - 1), ev, QUEUE_CAPACITY);
  }

  lemma NoSteps(settings: Settings)
    requires settings.bucketSecs > 0
    ensures After(settings, []) == Some(START)
  {
  }

  class Store {
    const agg: Aggregator
    const packetEvery: int
    var sampleN: int
    var queue: seq<Event>
    var pending: seq<Event>
    var nodes: map<Key, NodeAgg>
    var edges: map<Key, EdgeAgg>
    var buckets: map<BucketKey, Volume>
    var packets: seq<Event>
    ghost var world: World

    ghost predicate Valid()
      reads this, agg
    {
      && agg.Valid() && Consistent(agg.settings, world)
      && agg.Contents() == world.live && agg.dirtyNodes == world.dirtyNodes && agg.dirtyEdges == world.dirtyEdges
      && queue == world.queue && pending == world.pending && packets == world.packets
      && Totals(nodes, edges, buckets) == world.db
    }

    constructor (settings: Settings, packetEvery: int)
      requires settings.bucketSecs > 0
      ensures Valid() && fresh(agg) && agg.settings == settings && this.packetEvery == packetEvery && world == START
    {
      this.agg := new Aggregator(settings);
      this.packetEvery, sampleN := packetEvery, 0;
      queue, pending, packets := [], [], [];
      nodes, edges, buckets := map[], map[], map[];
      world := START;
      new;
      StartIsConsistent(settings);
    }

    method Record(ev: Event)
      requires Valid() && Enabled(world, Step.Record(ev))
      modifies this`world, agg
      ensures Valid() && world == Next(agg.settings, old(world), Step.Record(ev))
    {
      hide Consistent;
      StepKeeps(agg.settings, world, Step.Record(ev));
      world := Next(agg.settings, world, Step.Record(ev));
      agg.Apply(ev);
    }

    /** Never blocks: a full queue drops the row and counts it. */
    method Offer(ev: Event)
      requires Valid()
      modifies this`queue, this`world, agg`dropped
      ensures Valid() && world == Next(agg.settings, old(world), Step.Offer(ev))
      ensures agg.dropped == old(agg.dropped) + |world.refused| - |old(world).refused|
    {
      hide Consistent;
      StepKeeps(agg.settings, world, Step.Offer(ev));
      world := Next(agg.settings, world, Step.Offer(ev));
      if |queue| < QUEUE_CAPACITY {
        queue := queue + [ev];
      } else {
        agg.dropped := agg.dropped + 1;
      }
    }

    /** Folds the packet, then samples its row: none, every one, or one in packetEvery. */
    method RecordPacket(ev: Event)
      requires Valid() && (ev.capture != 0 ==> ev.capture !in world.ended)
      modifies this`queue, this`world, this`sampleN, agg
      ensures Valid()
      ensures ev.capture == 0 ==> world == old(world)
      ensures ev.capture != 0 ==> world.events == old(world).events + [ev]
      ensures ev.capture != 0 && packetEvery == 1 ==> world.sampled == old(world).sampled + [ev]
      ensures ev.capture != 0 && packetEvery > 1 && sampleN % packetEvery == 0 ==>
        world.sampled == old(world).sampled + [ev]
      ensures packetEvery > 1 && sampleN % packetEvery != 0 ==> world.sampled == old(world).sampled
      ensures packetEvery <= 0 || ev.capture == 0 ==> world.sampled == old(world).sampled
      ensures sampleN == if ev.capture != 0 && packetEvery > 1 then old(sampleN) + 1 else old(sampleN)
    {
      hide Valid, Consistent;
      if ev.capture == 0 {
        return;
      }
      Record(ev);
      if packetEvery <= 0 {
        return;
      }
      if packetEvery > 1 {
        Tick();
        if sampleN % packetEvery != 0 {
          return;
        }
      }
      Offer(ev);
    }

    method Tick()
      requires Valid()
      modifies this`sampleN
      ensures Valid() && sampleN == old(sampleN) + 1
    {
      sampleN := sampleN + 1;
    }

    // ---- the writer ----

    method ReceiveRow()
      requires Valid() && Enabled(world, Receive)
      modifies this`queue, this`pending, this`world
      ensures Valid() && world == Next(agg.settings, old(world), Receive)
    {
      hide Consistent;
      StepKeeps(agg.settings, world, Receive);
      world := Next(agg.settings, world, Receive);
      pending, queue := pending + [queue[0]], queue[1..];
    }

    static method Upsert<T>(table: map<Key, T>, batch: map<Key, T>, upsert: (T, T) -> T) returns (r: map<Key, T>)
      ensures r == UpsertAll(table, batch, upsert)
    {
      r := table;
      var todo := batch.Keys;
      while todo != {}
        invariant todo <= batch.Keys
        invariant r.Keys == table.Keys + (batch.Keys - todo)
        invariant forall k :: k in r && (k !in batch || k in todo) ==> r[k] == table[k]
        invariant forall k :: k in batch && k !in todo ==>
          r[k] == if k in table then upsert(table[k], batch[k]) else batch[k]
        decreases todo
      {
        var k :| k in todo;
        todo := todo - {k};
        r := r[k := if k in r then upsert(r[k], batch[k]) else batch[k]];
      }
    }

    static method AddBuckets(table: map<BucketKey, Volume>, batch: map<BucketKey, Volume>)
      returns (r: map<BucketKey, Volume>)
      ensures r == AddAll(table, batch)
    {
      hide Volume.Plus;
      r := table;
      var todo := batch.Keys;
      while todo != {}
        invariant todo <= batch.Keys
        invariant r.Keys == table.Keys + (batch.Keys - todo)
        invariant forall k :: k in r ==>
          r[k] == if k in batch && k !in todo then VolumeAt(table, k).Plus(batch[k]) else table[k]
        decreases todo
      {
        var k :| k in todo;
        todo := todo - {k};
        PlusLaws(batch[k], NOTHING, NOTHING);
        r := r[k := if k in r then r[k].Plus(batch[k]) else batch[k]];
      }
    }

    method TakeSnapshot() returns (batch: Batch)
      requires Valid() && !world.flying
      modifies this`world, agg
      ensures Valid() && world == Next(agg.settings, old(world), Snapshot) && batch == world.flight
    {
      hide Consistent;
      StepKeeps(agg.settings, world, Snapshot);
      world := Next(agg.settings, world, Snapshot);
      batch := agg.Snapshot();
    }

    /** One transaction: rows inserted, nodes and edges overwritten, buckets added. */
    method FlushTx(batch: Batch)
      requires Valid() && world.flying && batch == world.flight
      modifies this`nodes, this`edges, this`buckets, this`packets, this`pending, this`world
      ensures Valid() && world == Next(agg.settings, old(world), Commit)
    {
      hide Consistent, UpsertAll, AddAll;
      StepKeeps(agg.settings, world, Commit);
      world := Next(agg.settings, world, Commit);
      packets := packets + pending;
      nodes := Upsert(nodes, batch.nodes, UpsertNode);
      edges := Upsert(edges, batch.edges, UpsertEdge);
      buckets := AddBuckets(buckets, batch.buckets);
      pending := [];
    }

    /** The writer's flush: everything folded so far, and every pending row, is in the tables afterwards. */
    method Flush()
      requires Valid() && !world.flying
      modifies this, agg
      ensures Valid() && !world.flying && pending == [] && queue == old(queue)
      ensures world == Next(agg.settings, Next(agg.settings, old(world), Snapshot), Commit)
      ensures packets == old(packets) + old(pending)
    {
      hide Valid, Consistent, Committed, Taken;
      FieldsOf();
      var batch := TakeSnapshot();
      FlushTx(batch);
      FieldsOf();
    }

    lemma FieldsOf()
      requires Valid()
      ensures queue == world.queue && pending == world.pending && packets == world.packets
    {
    }

    /** A row arrives at the writer; a full batch is flushed at once, so fewer than BATCH_SIZE rows wait. */
    method OnRow()
      requires Valid() && Enabled(world, Receive) && |pending| < BATCH_SIZE
      modifies this, agg
      ensures Valid() && !world.flying && |pending| < BATCH_SIZE
      ensures packets + pending == old(packets) + old(pending) + [old(queue)[0]]
      ensures queue == old(queue)[1..]
    {
      hide Valid, Consistent, Committed, Taken;
      FieldsOf();
      ReceiveRow();
      FieldsOf();
      if |pending| >= BATCH_SIZE {
        Flush();
      }
    }

    /** Flush(): drains what is queued, up to DRAIN_MAX rows in hand, then flushes. What is beyond
        that bound stays queued. */
    method FlushRequest()
      requires Valid() && !world.flying
      modifies this, agg
      ensures Valid() && !world.flying && pending == []
      ensures packets + queue == old(packets) + old(pending) + old(queue)
      ensures queue == [] <==> old(queue) == [] || |old(pending)| + |old(queue)| <= DRAIN_MAX
      ensures world.live == old(world).live.(buckets := map[]) && world.dirtyNodes == {} && world.dirtyEdges == {}
      ensures world.events == old(world).events && world.ended == old(world).ended
        && world.forgotten == old(world).forgotten
      ensures world.flushed == old(world).flushed + old(world).ended
    {
      hide Valid, Consistent, Committed, Taken;
      FieldsOf();
      while |pending| < DRAIN_MAX && queue != []
        invariant Valid() && !world.flying && queue == world.queue && pending == world.pending
          && packets == world.packets
        invariant pending + queue == old(pending) + old(queue) && packets == old(packets)
        invariant pending == old(pending) || |pending| <= DRAIN_MAX
        invariant queue == [] ==> old(queue) == [] || |old(pending)| + |old(queue)| <= DRAIN_MAX
        invariant world.live == old(world).live && world.dirtyNodes == old(world).dirtyNodes
          && world.dirtyEdges == old(world).dirtyEdges
        invariant world.events == old(world).events && world.ended == old(world).ended
          && world.flushed == old(world).flushed
        invariant world.forgotten == old(world).forgotten
        decreases |queue|
      {
        RowsReceived([], pending, queue);
        ReceiveRow();
        FieldsOf();
      }
      assert packets + pending + queue == packets + (pending + queue);
      assert old(packets) + old(pending) + old(queue) == old(packets) + (old(pending) + old(queue));
      Flush();
    }

    /** EndCapture: flush, then forget the capture. Its tables then hold the fold of its packets. */
    method EndCapture(id: int)
      requires Valid() && !world.flying
      modifies this, agg
      ensures Valid()
      ensures id != 0 ==> CaptureOf(nodes, id) == CaptureOf(Fold(agg.settings, world.events).nodes, id)
      ensures id != 0 ==> CaptureOf(edges, id) == CaptureOf(Fold(agg.settings, world.events).edges, id)
      ensures id != 0 ==> CaptureBuckets(buckets, id) == CaptureBuckets(Fold(agg.settings, world.events).buckets, id)
      ensures world.events == old(world).events && (id == 0 ==> world == old(world))
    {
      hide Consistent, Fold, CaptureOf, CaptureBuckets, Without;
      if id == 0 {
        return;
      }
      StepKeeps(agg.settings, world, RequestEnd(id));
      world := Next(agg.settings, world, RequestEnd(id));
      FlushRequest();
      StepKeeps(agg.settings, world, Forget(id));
      world := Next(agg.settings, world, Forget(id));
      agg.DropCapture(id);
      StoredWhenForgotten(agg.settings, world, id);
    }
  }
}
