/** The two-speed store as a state machine (store/store.go, store/writer.go).

    Packets are folded into aggregates at once; their rows ride a bounded queue to the writer, which
    every so often snapshots what changed and commits it. Recording, receiving, snapshotting and
    committing interleave freely; the tables plus what is not committed yet always amount to the fold
    of every packet recorded. */
module StoreRuns {
  import opened Ids
  import opened GraphState
  import opened Aggregates

  const QUEUE_CAPACITY := 16384

  datatype World = World(
    live: Totals, dirtyNodes: set<Key>, dirtyEdges: set<Key>,   // the aggregator
    queue: seq<Event>, pending: seq<Event>,                     // packet rows on their way
    flight: Batch, flying: bool,                                // snapshot taken, not committed
    db: Totals, packets: seq<Event>,                            // the tables
    ended: set<int>, covered: set<int>, flushed: set<int>, forgotten: set<int>,
    events: seq<Event>,                                         // history: every packet recorded,
    sampled: seq<Event>, accepted: seq<Event>, refused: seq<Event>) // and every row sampled

  datatype Step =
    | Record(ev: Event)       // the hot path: fold the packet
    | Offer(ev: Event)        // the hot path: queue its row, or count it as dropped
    | Receive                 // the writer takes a row from the queue
    | Snapshot                // the writer starts a flush
    | Commit                  // and commits it
    | RequestEnd(id: int)     // EndCapture asks for a flush; nothing is recorded for the capture after that
    | Forget(id: int)         // EndCapture, once that flush is done, forgets the capture

  const NO_BATCH := Batch(map[], map[], map[])

  const START := World(NO_TOTALS, {}, {}, [], [], NO_BATCH, false, NO_TOTALS, [], {}, {}, {}, {}, [], [], [], [])

  // ---- upserts ----

  function UpsertNode(row: NodeAgg, n: NodeAgg): NodeAgg {
    n.(hostname := if n.hostname == "" then row.hostname else n.hostname, first := row.first)
  }

  function UpsertEdge(row: EdgeAgg, e: EdgeAgg): EdgeAgg { e.(from := row.from, to := row.to, first := row.first) }

  function UpsertAll<T>(table: map<Key, T>, batch: map<Key, T>, upsert: (T, T) -> T): map<Key, T> {
    table + map k | k in batch :: if k in table then upsert(table[k], batch[k]) else batch[k]
  }

  function AddAll(table: map<BucketKey, Volume>, batch: map<BucketKey, Volume>): map<BucketKey, Volume> {
    table + map k | k in batch :: VolumeAt(table, k).Plus(batch[k])
  }

  function Committed(db: Totals, batch: Batch): Totals {
    Totals(UpsertAll(db.nodes, batch.nodes, UpsertNode), UpsertAll(db.edges, batch.edges, UpsertEdge),
      AddAll(db.buckets, batch.buckets))
  }

  // ---- steps ----

  function Taken(live: Totals, dirtyNodes: set<Key>, dirtyEdges: set<Key>): Batch {
    Batch(map k | k in dirtyNodes && k in live.nodes :: live.nodes[k], map k | k in dirtyEdges
      && k in live.edges :: live.edges[k], live.buckets)
  }

  predicate Enabled(w: World, s: Step) {
    match s
    case Record(ev) => ev.capture !in w.ended
    case Offer(ev) => true
    case Receive => !w.flying && w.queue != []
    case Snapshot => !w.flying
    case Commit => w.flying
    case RequestEnd(_) => true
    case Forget(id) => id in w.flushed
  }

  function Next(settings: Settings, w: World, s: Step): World
    requires settings.bucketSecs > 0 && Enabled(w, s)
  {
    match s
    case Record(ev) =>
      w.(live := Applied(settings, w.live, ev),
         dirtyNodes := w.dirtyNodes + {NodeKeyOf(ev, ev.src), NodeKeyOf(ev, ev.dst)},
         dirtyEdges := w.dirtyEdges + {EdgeKeyOf(ev)},
         events := w.events + [ev])
    case Offer(ev) =>
      if |w.queue| < QUEUE_CAPACITY then w.(queue := w.queue + [ev], accepted := w.accepted + [ev],
        sampled := w.sampled + [ev])
      else w.(refused := w.refused + [ev], sampled := w.sampled + [ev])
    case Receive => w.(pending := w.pending + [w.queue[0]], queue := w.queue[1..])
    case Snapshot =>
      w.(flight := Taken(w.live, w.dirtyNodes, w.dirtyEdges), flying := true, dirtyNodes := {}, dirtyEdges := {},
         live := w.live.(buckets := map[]), covered := w.ended)
    case Commit =>
      w.(db := Committed(w.db, w.flight), packets := w.packets + w.pending, pending := [], flight := NO_BATCH,
        flying := false,
         flushed := w.flushed + w.covered)
    case RequestEnd(id) => w.(ended := w.ended + {id})
    case Forget(id) =>
      w.(live := w.live.(nodes := Without(w.live.nodes, id), edges := Without(w.live.edges, id)),
         dirtyNodes := Others(w.dirtyNodes, id), dirtyEdges := Others(w.dirtyEdges, id),
         forgotten := w.forgotten + {id})
  }

  // ---- one cumulative table ----

  /** Upserting `b` over an older version `a` of the same entry leaves `b`. */
  predicate Supersedes<T(==)>(upsert: (T, T) -> T, a: T, b: T) { upsert(a, b) == b }

  /** How a table, a batch in flight and the live entries relate to the fold of all packets. */
  ghost predicate Follows<T>(fold: map<Key, T>, live: map<Key, T>, dirty: set<Key>, flight: map<Key, T>,
                             db: map<Key, T>,
                                forgotten: set<int>, upsert: (T, T) -> T)
  {
    && dirty <= live.Keys
    && (forall k {:trigger k in live} :: k in live ==> k in fold && live[k] == fold[k] && k.capture !in forgotten)
    && (forall k {:trigger k in flight} :: k in flight ==> k in fold && Supersedes(upsert, flight[k], fold[k]))
    && (forall k {:trigger k in db} :: k in db ==> k in fold && Supersedes(upsert, db[k], fold[k]))
    && (forall k {:trigger k in db} :: k in db && k in flight ==> Supersedes(upsert, db[k], flight[k]))
    && (forall k {:trigger k in fold} :: k in fold ==> k in live || k.capture in forgotten)
    && (forall k {:trigger k in fold} :: k in fold && k !in dirty ==> Latest(flight, db, k) == Some(fold[k]))
  }

  function Latest<T>(flight: map<Key, T>, db: map<Key, T>, k: Key): Option<T> {
    if k in flight then Some(flight[k]) else if k in db then Some(db[k]) else None
  }

  lemma FollowsRecord<T(!new)>(fold: map<Key, T>, live: map<Key, T>, dirty: set<Key>, flight: map<Key, T>,
                        db: map<Key, T>,
                        forgotten: set<int>, upsert: (T, T) -> T, key: Key, now: T)
    requires Follows(fold, live, dirty, flight, db, forgotten, upsert) && key.capture !in forgotten
    requires forall a :: key in fold && Supersedes(upsert, a, fold[key]) ==> Supersedes(upsert, a, now)
    ensures Follows(fold[key := now], live[key := now], dirty + {key}, flight, db, forgotten, upsert)
    ensures key in live <==> key in fold
    ensures key in live ==> live[key] == fold[key]
  {
  }

  lemma FollowsSnapshot<T(!new)>(fold: map<Key, T>, live: map<Key, T>, dirty: set<Key>, db: map<Key, T>,
                          forgotten: set<int>, upsert: (T, T) -> T)
    requires Follows(fold, live, dirty, map[], db, forgotten, upsert)
    requires forall a: T :: Supersedes(upsert, a, a)
    ensures Follows(fold, live, {}, map k | k in dirty && k in live :: live[k], db, forgotten, upsert)
  {
  }

  lemma FollowsCommit<T>(fold: map<Key, T>, live: map<Key, T>, dirty: set<Key>, flight: map<Key, T>, db: map<Key, T>,
                        forgotten: set<int>, upsert: (T, T) -> T)
    requires Follows(fold, live, dirty, flight, db, forgotten, upsert)
    ensures Follows(fold, live, dirty, map[], UpsertAll(db, flight, upsert), forgotten, upsert)
  {
    hide Supersedes;
    var db' := UpsertAll(db, flight, upsert);
    forall k | k in flight ensures db'[k] == flight[k] {
      if k in db { LandsAs(upsert, db[k], flight[k]); }
    }
  }

  lemma LandsAs<T>(upsert: (T, T) -> T, a: T, b: T)
    requires Supersedes(upsert, a, b)
    ensures upsert(a, b) == b
  {
  }

  lemma FollowsForget<T>(fold: map<Key, T>, live: map<Key, T>, dirty: set<Key>, flight: map<Key, T>, db: map<Key, T>,
                        forgotten: set<int>, upsert: (T, T) -> T, id: int)
    requires Follows(fold, live, dirty, flight, db, forgotten, upsert)
    requires forall k :: k in dirty ==> k.capture != id
    ensures Follows(fold, Without(live, id), Others(dirty, id), flight, db, forgotten + {id}, upsert)
  {
  }

  // ---- the whole store ----

  /** The buckets flushed, in flight and still in memory add up to the fold's. */
  ghost predicate BucketsAddUp(fold: map<BucketKey, Volume>, live: map<BucketKey, Volume>,
                               flight: map<BucketKey, Volume>,
                               db: map<BucketKey, Volume>)
  {
    forall k: BucketKey :: BucketAddsUp(fold, live, flight, db, k)
  }

  ghost predicate BucketAddsUp(fold: map<BucketKey, Volume>, live: map<BucketKey, Volume>,
                               flight: map<BucketKey, Volume>,
                               db: map<BucketKey, Volume>, k: BucketKey)
  {
    && VolumeAt(fold, k) == VolumeAt(db, k).Plus(VolumeAt(flight, k)).Plus(VolumeAt(live, k))
    && (k in fold <==> k in db || k in flight || k in live)
  }

  /** Nothing of this capture waits to be flushed. */
  ghost predicate Quiet(w: World, id: int) {
    && (forall k {:trigger k in w.dirtyNodes} :: k in w.dirtyNodes ==> k.capture != id)
    && (forall k {:trigger k in w.dirtyEdges} :: k in w.dirtyEdges ==> k.capture != id)
    && (forall k {:trigger k in w.live.buckets} :: k in w.live.buckets ==> k.capture != id)
  }

  ghost predicate Landed(w: World, id: int) {
    && (forall k {:trigger k in w.flight.nodes} :: k in w.flight.nodes ==> k.capture != id)
    && (forall k {:trigger k in w.flight.edges} :: k in w.flight.edges ==> k.capture != id)
    && (forall k {:trigger k in w.flight.buckets} :: k in w.flight.buckets ==> k.capture != id)
  }

  ghost predicate Endings(w: World) {
    && w.covered <= w.ended && w.flushed <= w.ended && w.forgotten <= w.flushed
    && (w.flying ==> forall id {:trigger id in w.covered} :: id in w.covered ==> Quiet(w, id))
    && (forall id {:trigger id in w.flushed} :: id in w.flushed ==> Quiet(w, id) && Landed(w, id))
  }

  ghost predicate Rows(w: World) {
    && w.packets + w.pending + w.queue == w.accepted
    && multiset(w.sampled) == multiset(w.accepted) + multiset(w.refused)
    && |w.queue| <= QUEUE_CAPACITY
  }

  ghost predicate Consistent(settings: Settings, w: World)
    requires settings.bucketSecs > 0
  {
    var fold := Fold(settings, w.events);
    && Follows(fold.nodes, w.live.nodes, w.dirtyNodes, w.flight.nodes, w.db.nodes, w.forgotten, UpsertNode)
    && Follows(fold.edges, w.live.edges, w.dirtyEdges, w.flight.edges, w.db.edges, w.forgotten, UpsertEdge)
    && BucketsAddUp(fold.buckets, w.live.buckets, w.flight.buckets, w.db.buckets)
    && (!w.flying ==> w.flight == NO_BATCH)
    && Endings(w) && Rows(w)
  }

  lemma ApplyNodeFollows(fold: map<Key, NodeAgg>, live: map<Key, NodeAgg>, dirty: set<Key>, flight: map<Key, NodeAgg>,
                        db: map<Key, NodeAgg>, forgotten: set<int>, ev: Event, id: string, host: string)
    requires Follows(fold, live, dirty, flight, db, forgotten, UpsertNode) && ev.capture !in forgotten
    ensures Follows(ApplyNode(fold, ev, id, host), ApplyNode(live, ev, id, host), dirty + {NodeKeyOf(ev, id)}, flight,
      db, forgotten, UpsertNode)
  {
    hide Follows;
    var key := NodeKeyOf(ev, id);
    FollowsRecord(fold, live, dirty, flight, db, forgotten, UpsertNode, key, ApplyNode(fold, ev, id, host)[key]);
  }

  lemma ApplyEdgeFollows(settings: Settings, fold: map<Key, EdgeAgg>, live: map<Key, EdgeAgg>, dirty: set<Key>,
                         flight: map<Key, EdgeAgg>,
                        db: map<Key, EdgeAgg>, forgotten: set<int>, ev: Event)
    requires Follows(fold, live, dirty, flight, db, forgotten, UpsertEdge) && ev.capture !in forgotten
    ensures Follows(ApplyEdge(settings, fold, ev), ApplyEdge(settings, live, ev), dirty + {EdgeKeyOf(ev)}, flight, db,
      forgotten, UpsertEdge)
  {
    hide Follows, EdgeId, CanonFrom, CanonTo, PacketVolume;
    var key := EdgeKeyOf(ev);
    FollowsRecord(fold, live, dirty, flight, db, forgotten, UpsertEdge, key, ApplyEdge(settings, fold, ev)[key]);
  }

  lemma RecordKeepsBuckets(settings: Settings, fold: map<BucketKey, Volume>, live: map<BucketKey, Volume>,
                           flight: map<BucketKey, Volume>,
                           db: map<BucketKey, Volume>, ev: Event)
    requires settings.bucketSecs > 0 && BucketsAddUp(fold, live, flight, db)
    ensures BucketsAddUp(ApplyBucket(settings, fold, ev), ApplyBucket(settings, live, ev), flight, db)
  {
    hide BucketAddsUp, ApplyBucket;
    forall k: BucketKey ensures BucketAddsUp(ApplyBucket(settings, fold, ev), ApplyBucket(settings, live, ev), flight,
      db, k) {
      assert BucketAddsUp(fold, live, flight, db, k);
      RecordKeepsBucket(settings, fold, live, flight, db, ev, k);
    }
  }

  lemma RecordKeepsBucket(settings: Settings, fold: map<BucketKey, Volume>, live: map<BucketKey, Volume>,
                          flight: map<BucketKey, Volume>,
                          db: map<BucketKey, Volume>, ev: Event, k: BucketKey)
    requires settings.bucketSecs > 0 && BucketAddsUp(fold, live, flight, db, k)
    ensures BucketAddsUp(ApplyBucket(settings, fold, ev), ApplyBucket(settings, live, ev), flight, db, k)
  {
    hide BucketKeyOf, PacketVolume, Volume.Plus;
    PlusLaws(VolumeAt(db, k).Plus(VolumeAt(flight, k)), VolumeAt(live, k), PacketVolume(ev));
  }

  lemma FoldMore(settings: Settings, events: seq<Event>, ev: Event)
    requires settings.bucketSecs > 0
    ensures Fold(settings, events + [ev]) == Applied(settings, Fold(settings, events), ev)
  {
  }

  lemma RecordKeeps(settings: Settings, w: World, ev: Event)
    requires settings.bucketSecs > 0 && Consistent(settings, w) && Enabled(w, Record(ev))
    ensures Consistent(settings, Next(settings, w, Record(ev)))
  {
    hide Follows, BucketsAddUp, ApplyNode, ApplyEdge, Fold, NodeKeyOf, EdgeKeyOf, Rows, UpsertNode, UpsertEdge;
    var fold := Fold(settings, w.events);
    FoldMore(settings, w.events, ev);
    ApplyNodeFollows(fold.nodes, w.live.nodes, w.dirtyNodes, w.flight.nodes, w.db.nodes, w.forgotten, ev, ev.src,
      ev.srcHost);
    ApplyNodeFollows(ApplyNode(fold.nodes, ev, ev.src, ev.srcHost), ApplyNode(w.live.nodes, ev, ev.src, ev.srcHost),
                    w.dirtyNodes + {NodeKeyOf(ev, ev.src)}, w.flight.nodes, w.db.nodes, w.forgotten, ev, ev.dst,
                      ev.dstHost);
    assert w.dirtyNodes + {NodeKeyOf(ev, ev.src)} + {NodeKeyOf(ev, ev.dst)}
      == w.dirtyNodes + {NodeKeyOf(ev, ev.src), NodeKeyOf(ev, ev.dst)};
    ApplyEdgeFollows(settings, fold.edges, w.live.edges, w.dirtyEdges, w.flight.edges, w.db.edges, w.forgotten, ev);
    RecordKeepsBuckets(settings, fold.buckets, w.live.buckets, w.flight.buckets, w.db.buckets, ev);
    RecordKeepsEndings(settings, w, ev);
    RowsIgnore(w, Next(settings, w, Record(ev)));
  }

  lemma RowsIgnore(w: World, v: World)
    requires w.packets == v.packets && w.pending == v.pending && w.queue == v.queue
    requires w.accepted == v.accepted && w.sampled == v.sampled && w.refused == v.refused
    ensures Rows(w) == Rows(v)
  {
  }

  lemma RecordKeepsEndings(settings: Settings, w: World, ev: Event)
    requires settings.bucketSecs > 0 && Endings(w) && Enabled(w, Record(ev))
    ensures Endings(Next(settings, w, Record(ev)))
  {
    hide ApplyNode, ApplyEdge, EdgeId;
  }

  lemma RowsReceived(packets: seq<Event>, pending: seq<Event>, queue: seq<Event>)
    requires queue != []
    ensures packets + (pending + [queue[0]]) + queue[1..] == packets + pending + queue
  {
  }

  lemma RowsMove(settings: Settings, w: World, s: Step)
    requires settings.bucketSecs > 0 && Rows(w) && Enabled(w, s) && !s.Record?
    ensures Rows(Next(settings, w, s))
  {
    hide Taken, Committed, Without, Others, Rows;
    var v := Next(settings, w, s);
    match s
    case Receive =>
      RowReceived(w);
      RowsIgnore(w.(pending := w.pending + [w.queue[0]], queue := w.queue[1..]), v);
    case Offer(ev) => RowOffered(w, ev);
    case Commit =>
      RowsCommitted(w);
      RowsIgnore(w.(packets := w.packets + w.pending, pending := []), v);
    case _ => RowsIgnore(w, v);
  }

  lemma RowReceived(w: World)
    requires Rows(w) && w.queue != []
    ensures Rows(w.(pending := w.pending + [w.queue[0]], queue := w.queue[1..]))
  {
  }

  lemma RowOffered(w: World, ev: Event)
    requires Rows(w)
    ensures |w.queue| < QUEUE_CAPACITY ==>
      Rows(w.(queue := w.queue + [ev], accepted := w.accepted + [ev], sampled := w.sampled + [ev]))
    ensures Rows(w.(refused := w.refused + [ev], sampled := w.sampled + [ev]))
  {
    assert w.packets + w.pending + (w.queue + [ev]) == w.packets + w.pending + w.queue + [ev];
  }

  lemma RowsCommitted(w: World)
    requires Rows(w)
    ensures Rows(w.(packets := w.packets + w.pending, pending := []))
  {
  }

  lemma SnapshotKeeps(settings: Settings, w: World)
    requires settings.bucketSecs > 0 && Consistent(settings, w) && Enabled(w, Snapshot)
    ensures Consistent(settings, Next(settings, w, Snapshot))
  {
    hide Follows, BucketsAddUp, Fold, Rows, Endings;
    var fold := Fold(settings, w.events);
    FollowsSnapshot(fold.nodes, w.live.nodes, w.dirtyNodes, w.db.nodes, w.forgotten, UpsertNode);
    FollowsSnapshot(fold.edges, w.live.edges, w.dirtyEdges, w.db.edges, w.forgotten, UpsertEdge);
    SnapshotKeepsBuckets(fold.buckets, w.live.buckets, w.db.buckets);
    SnapshotKeepsEndings(settings, w);
    RowsMove(settings, w, Snapshot);
  }

  lemma SnapshotKeepsBuckets(fold: map<BucketKey, Volume>, live: map<BucketKey, Volume>, db: map<BucketKey, Volume>)
    requires BucketsAddUp(fold, live, map[], db)
    ensures BucketsAddUp(fold, map[], live, db)
  {
    forall k: BucketKey ensures BucketAddsUp(fold, map[], live, db, k) {
      assert BucketAddsUp(fold, live, map[], db, k);
      PlusLaws(VolumeAt(db, k), VolumeAt(live, k), NOTHING);
      PlusLaws(VolumeAt(db, k).Plus(VolumeAt(live, k)), NOTHING, NOTHING);
    }
  }

  lemma SnapshotKeepsEndings(settings: Settings, w: World)
    requires settings.bucketSecs > 0 && Endings(w) && Enabled(w, Snapshot)
    ensures Endings(Next(settings, w, Snapshot))
  {
  }

  lemma CommitKeeps(settings: Settings, w: World)
    requires settings.bucketSecs > 0 && Consistent(settings, w) && Enabled(w, Commit)
    ensures Consistent(settings, Next(settings, w, Commit))
  {
    hide Follows, BucketsAddUp, Fold, Rows, UpsertAll, AddAll, UpsertNode, UpsertEdge;
    var fold := Fold(settings, w.events);
    FollowsCommit(fold.nodes, w.live.nodes, w.dirtyNodes, w.flight.nodes, w.db.nodes, w.forgotten, UpsertNode);
    FollowsCommit(fold.edges, w.live.edges, w.dirtyEdges, w.flight.edges, w.db.edges, w.forgotten, UpsertEdge);
    CommitKeepsBuckets(fold.buckets, w.live.buckets, w.flight.buckets, w.db.buckets);
    RowsMove(settings, w, Commit);
  }

  lemma CommitKeepsBuckets(fold: map<BucketKey, Volume>, live: map<BucketKey, Volume>, flight: map<BucketKey, Volume>,
                           db: map<BucketKey, Volume>)
    requires BucketsAddUp(fold, live, flight, db)
    ensures BucketsAddUp(fold, live, map[], AddAll(db, flight))
  {
    hide BucketAddsUp, AddAll;
    forall k: BucketKey ensures BucketAddsUp(fold, live, map[], AddAll(db, flight), k) {
      assert BucketAddsUp(fold, live, flight, db, k);
      CommitKeepsBucket(fold, live, flight, db, k);
    }
  }

  lemma CommitKeepsBucket(fold: map<BucketKey, Volume>, live: map<BucketKey, Volume>, flight: map<BucketKey, Volume>,
                          db: map<BucketKey, Volume>, k: BucketKey)
    requires BucketAddsUp(fold, live, flight, db, k)
    ensures BucketAddsUp(fold, live, map[], AddAll(db, flight), k)
  {
    hide Volume.Plus;
    PlusLaws(VolumeAt(db, k), VolumeAt(flight, k), NOTHING);
    PlusLaws(VolumeAt(db, k).Plus(VolumeAt(flight, k)), NOTHING, NOTHING);
  }

  lemma ForgetKeeps(settings: Settings, w: World, id: int)
    requires settings.bucketSecs > 0 && Consistent(settings, w) && Enabled(w, Forget(id))
    ensures Consistent(settings, Next(settings, w, Forget(id)))
  {
    hide Follows, BucketsAddUp, Fold, Rows, UpsertNode, UpsertEdge, Without;
    var fold := Fold(settings, w.events);
    FollowsForget(fold.nodes, w.live.nodes, w.dirtyNodes, w.flight.nodes, w.db.nodes, w.forgotten, UpsertNode, id);
    FollowsForget(fold.edges, w.live.edges, w.dirtyEdges, w.flight.edges, w.db.edges, w.forgotten, UpsertEdge, id);
    RowsMove(settings, w, Forget(id));
  }

  lemma OtherStepKeeps(settings: Settings, w: World, s: Step)
    requires settings.bucketSecs > 0 && Consistent(settings, w) && Enabled(w, s)
      && (s.Offer? || s.Receive? || s.RequestEnd?)
    ensures Consistent(settings, Next(settings, w, s))
  {
    hide Follows, BucketsAddUp, Fold, Rows, Endings;
    RowsMove(settings, w, s);
    EndingsIgnore(w, Next(settings, w, s));
  }

  lemma EndingsIgnore(w: World, v: World)
    requires Endings(w) && w.ended <= v.ended && w.covered == v.covered && w.flushed == v.flushed
      && w.forgotten == v.forgotten
    requires w.flying == v.flying && w.flight == v.flight && w.live == v.live && w.dirtyNodes == v.dirtyNodes
      && w.dirtyEdges == v.dirtyEdges
    ensures Endings(v)
  {
    forall id: int ensures Quiet(w, id) == Quiet(v, id) && Landed(w, id) == Landed(v, id) {
    }
    hide Quiet, Landed;
  }

  lemma StepKeeps(settings: Settings, w: World, s: Step)
    requires settings.bucketSecs > 0 && Consistent(settings, w) && Enabled(w, s)
    ensures Consistent(settings, Next(settings, w, s))
  {
    hide Consistent, Next, Enabled;
    match s
    case Record(ev) => RecordKeeps(settings, w, ev);
    case Snapshot => SnapshotKeeps(settings, w);
    case Commit => CommitKeeps(settings, w);
    case Forget(id) => ForgetKeeps(settings, w, id);
    case Offer(_) => OtherStepKeeps(settings, w, s);
    case Receive => OtherStepKeeps(settings, w, s);
    case RequestEnd(_) => OtherStepKeeps(settings, w, s);
  }

  // ---- every run ----

  /** The state after these steps, if each was enabled when it was taken. */
  function After(settings: Settings, steps: seq<Step>): Option<World>
    requires settings.bucketSecs > 0
  {
    if steps == [] then Some(START)
    else
      match After(settings, steps[..|steps| - 1])
      case Some(w) => if Enabled(w, steps[|steps| - 1]) then Some(Next(settings, w, steps[|steps| - 1])) else None
      case None => None
  }

  lemma {:induction false} EveryRunIsConsistent(settings: Settings, steps: seq<Step>)
    requires settings.bucketSecs > 0 && After(settings, steps).Some?
    ensures Consistent(settings, After(settings, steps).value)
  {
    hide Consistent, Enabled, Next;
    if steps == [] {
      StartIsConsistent(settings);
    } else {
      EveryRunIsConsistent(settings, steps[..|steps| - 1]);
      StepKeeps(settings, After(settings, steps[..|steps| - 1]).value, steps[|steps| - 1]);
    }
  }

  lemma StartIsConsistent(settings: Settings)
    requires settings.bucketSecs > 0
    ensures Consistent(settings, START)
  {
    assert forall k: BucketKey :: BucketAddsUp(map[], map[], map[], map[], k);
  }

  /** The rows of a table overlaid with the batch in flight and then with the dirty entries. */
  function Overlaid<T>(live: map<Key, T>, dirty: set<Key>, flight: map<Key, T>, db: map<Key, T>, k: Key): Option<T> {
    if k in dirty && k in live then Some(live[k]) else Latest(flight, db, k)
  }

  /** At every moment of every run: rows overlaid with what is dirty are the fold's entries, flushed and
      unflushed buckets add up to the fold's, and each sampled row is exactly one of inserted, pending,
      queued or counted as dropped, in order. */
  lemma PersistenceRefinesFold(settings: Settings, steps: seq<Step>)
    requires settings.bucketSecs > 0 && After(settings, steps).Some?
    ensures var w := After(settings, steps).value;
      var fold := Fold(settings, w.events);
      && (forall k ::
        Overlaid(w.live.nodes, w.dirtyNodes, w.flight.nodes, w.db.nodes, k) == if k in fold.nodes
          then Some(fold.nodes[k]) else None)
      && (forall k ::
        Overlaid(w.live.edges, w.dirtyEdges, w.flight.edges, w.db.edges, k) == if k in fold.edges
          then Some(fold.edges[k]) else None)
      && (forall k ::
        VolumeAt(fold.buckets, k) == VolumeAt(w.db.buckets,
          k).Plus(VolumeAt(w.flight.buckets, k)).Plus(VolumeAt(w.live.buckets, k)))
      && w.dirtyNodes <= w.live.nodes.Keys && w.dirtyEdges <= w.live.edges.Keys
      && w.packets + w.pending + w.queue == w.accepted
      && multiset(w.sampled) == multiset(w.accepted) + multiset(w.refused)
  {
    hide Fold;
    EveryRunIsConsistent(settings, steps);
    var w := After(settings, steps).value;
    var fold := Fold(settings, w.events);
    forall k ensures VolumeAt(fold.buckets, k)
      == VolumeAt(w.db.buckets, k).Plus(VolumeAt(w.flight.buckets, k)).Plus(VolumeAt(w.live.buckets, k)) {
      assert BucketAddsUp(fold.buckets, w.live.buckets, w.flight.buckets, w.db.buckets, k);
    }
  }

  function CaptureOf<T>(m: map<Key, T>, id: int): map<Key, T> { map k | k in m && k.capture == id :: m[k] }

  function CaptureBuckets(m: map<BucketKey, Volume>, id: int): map<BucketKey, Volume> {
    map k | k in m && k.capture == id :: m[k]
  }

  /** Once EndCapture has forgotten a capture, its tables hold exactly the fold of its packets. */
  lemma EndedCaptureIsStored(settings: Settings, steps: seq<Step>, id: int)
    requires settings.bucketSecs > 0 && After(settings, steps).Some? && id in After(settings, steps).value.forgotten
    ensures var w := After(settings, steps).value;
      var fold := Fold(settings, w.events);
      && CaptureOf(w.db.nodes, id) == CaptureOf(fold.nodes, id)
      && CaptureOf(w.db.edges, id) == CaptureOf(fold.edges, id)
      && CaptureBuckets(w.db.buckets, id) == CaptureBuckets(fold.buckets, id)
  {
    EveryRunIsConsistent(settings, steps);
    StoredWhenForgotten(settings, After(settings, steps).value, id);
  }

  lemma StoredWhenForgotten(settings: Settings, w: World, id: int)
    requires settings.bucketSecs > 0 && Consistent(settings, w) && id in w.forgotten
    ensures CaptureOf(w.db.nodes, id) == CaptureOf(Fold(settings, w.events).nodes, id)
    ensures CaptureOf(w.db.edges, id) == CaptureOf(Fold(settings, w.events).edges, id)
    ensures CaptureBuckets(w.db.buckets, id) == CaptureBuckets(Fold(settings, w.events).buckets, id)
  {
    hide Fold, Rows;
    var fold := Fold(settings, w.events);
    RowsStored(fold.nodes, w.live.nodes, w.dirtyNodes, w.flight.nodes, w.db.nodes, w.forgotten, UpsertNode, id);
    RowsStored(fold.edges, w.live.edges, w.dirtyEdges, w.flight.edges, w.db.edges, w.forgotten, UpsertEdge, id);
    BucketsStored(fold.buckets, w.live.buckets, w.flight.buckets, w.db.buckets, id);
  }

  lemma RowsStored<T>(fold: map<Key, T>, live: map<Key, T>, dirty: set<Key>, flight: map<Key, T>, db: map<Key, T>,
                      forgotten: set<int>, upsert: (T, T) -> T, id: int)
    requires Follows(fold, live, dirty, flight, db, forgotten, upsert)
    requires forall k :: k in dirty ==> k.capture != id
    requires forall k :: k in flight ==> k.capture != id
    ensures CaptureOf(db, id) == CaptureOf(fold, id)
  {
  }

  lemma BucketsStored(fold: map<BucketKey, Volume>, live: map<BucketKey, Volume>, flight: map<BucketKey, Volume>,
                      db: map<BucketKey, Volume>, id: int)
    requires BucketsAddUp(fold, live, flight, db)
    requires forall k :: k in live ==> k.capture != id
    requires forall k :: k in flight ==> k.capture != id
    ensures CaptureBuckets(db, id) == CaptureBuckets(fold, id)
  {
    forall k: BucketKey | k.capture == id ensures VolumeAt(fold, k) == VolumeAt(db, k) && (k in fold <==> k in db) {
      assert BucketAddsUp(fold, live, flight, db, k);
    }
  }
}
