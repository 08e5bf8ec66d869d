/** What a timeline window carries: the packets of its seconds, no others (store/query.go, store/writer.go). */
module WindowTraffic {
  import opened Ids
  import opened GraphState
  import opened Aggregates
  import opened VolumeSums
  import opened StoreRuns
  import opened LoadReplay
  import opened WindowQuery
  import opened StoredWindows
  import opened SentTraffic

  /** The packet's second lies in [from, to); before 1970 buckets end with their seconds, so it is (from, to] one
      width earlier. */
  predicate InSpan(settings: Settings, millis: int, from: int, to: int) {
    if millis >= 0 then from <= millis / 1000 < to
    else from - settings.bucketSecs < millis / 1000 <= to - settings.bucketSecs
  }

  /** The packets of these seconds, in order. */
  function Within(settings: Settings, own: seq<Event>, from: int, to: int): seq<Event> {
    if own == [] then []
    else
      var past := Within(settings, own[..|own| - 1], from, to);
      if InSpan(settings, own[|own| - 1].millis, from, to) then past + [own[|own| - 1]] else past
  }

  lemma MultiplesApart(a: int, c: int, b: int)
    requires b > 0 && a % b == 0 && c % b == 0 && a < c
    ensures a + b <= c
  {
    assert a == b * (a / b) && c == b * (c / b);
    Apart(b, c / b - a / b);
    assert c - a == b * (c / b - a / b);
  }

  /** A bucket begins in the window exactly if its seconds are the window's. */
  lemma BucketInWindow(settings: Settings, start: int, millis: int, from: int, to: int)
    requires settings.bucketSecs > 0 && from % settings.bucketSecs == 0 && to % settings.bucketSecs == 0
    requires HoldsSecond(settings, start, millis)
    ensures from <= start < to <==> InSpan(settings, millis, from, to)
  {
    var b := settings.bucketSecs;
    if start < from { MultiplesApart(start, from, b); }
    if from < start { MultiplesApart(from, start, b); }
    if start < to { MultiplesApart(start, to, b); }
    if to < start { MultiplesApart(to, start, b); }
  }

  /** The buckets that begin in a window hold the traffic of the window's seconds. */
  lemma {:induction false} FoldWindow(settings: Settings, events: seq<Event>, c: int, from: int, to: int, w: Weight)
    requires settings.bucketSecs > 0 && from % settings.bucketSecs == 0 && to % settings.bucketSecs == 0
    ensures Traffic(Window(Fold(settings, events).buckets, c, from, to), w)
      == EventTraffic(Within(settings, OfCapture(events, c), from, to), w)
  {
    hide ApplyNode, ApplyEdge, ApplyBucket, Volume.Plus, Scaled, PacketVolume, EdgeId, BucketStart, Traffic, InSpan,
         HoldsSecond, Window;
    if events == [] {
      EmptyWindow(c, from, to, w);
    } else {
      var past, ev := events[..|events| - 1], events[|events| - 1];
      FoldWindow(settings, past, c, from, to, w);
      var before := Fold(settings, past).buckets;
      var key := BucketKeyOf(settings, ev);
      BucketHoldsItsSecond(settings, ev.millis);
      BucketInWindow(settings, key.ts, ev.millis, from, to);
      WindowApplied(settings, before, ev, c, from, to);
      if ev.capture == c {
        LastOwn(events, c);
        if from <= key.ts < to {
          TrafficPut(Window(before, c, from, to), key, PacketVolume(ev), w);
          LastWithin(settings, OfCapture(events, c), from, to);
        }
      }
    }
  }

  lemma EmptyWindow(c: int, from: int, to: int, w: Weight)
    ensures Traffic(Window(map[], c, from, to), w) == NOTHING
  {
    assert Window(map[], c, from, to) == map[];
    GroupsAddUp([], map[], w);
  }

  lemma WindowApplied(settings: Settings, before: map<BucketKey, Volume>, ev: Event, c: int, from: int, to: int)
    requires settings.bucketSecs > 0
    ensures var key, was := BucketKeyOf(settings, ev), Window(before, c, from, to);
      Window(ApplyBucket(settings, before, ev), c, from, to) ==
        if ev.capture == c && from <= key.ts < to then was[key := VolumeAt(was, key).Plus(PacketVolume(ev))] else was
  {
    hide Volume.Plus, PacketVolume, EdgeId, BucketStart;
  }

  lemma LastWithin(settings: Settings, own: seq<Event>, from: int, to: int)
    requires own != [] && InSpan(settings, own[|own| - 1].millis, from, to)
    ensures var r := Within(settings, own, from, to);
      r != [] && r[|r| - 1] == own[|own| - 1] && r[..|r| - 1] == Within(settings, own[..|own| - 1], from, to)
  {
  }

  // ---- in every run ----

  ghost predicate Adds<K(!new)>(m: map<K, Volume>, a: map<K, Volume>, b: map<K, Volume>, c: map<K, Volume>) {
    && m.Keys == a.Keys + b.Keys + c.Keys
    && forall k :: VolumeAt(m, k) == VolumeAt(a, k).Plus(VolumeAt(b, k)).Plus(VolumeAt(c, k))
  }

  lemma GatheredWithout<K>(m: map<K, Volume>, k: K)
    ensures Gathered(m) == VolumeAt(m, k).Plus(Gathered(m - {k}))
  {
    if k in m {
      GatheredRemove(m, k);
    } else {
      assert m - {k} == m;
    }
  }

  lemma AddsWithout<K(!new)>(m: map<K, Volume>, a: map<K, Volume>, b: map<K, Volume>, c: map<K, Volume>, x: K)
    requires Adds(m, a, b, c)
    ensures Adds(m - {x}, a - {x}, b - {x}, c - {x})
  {
    forall k ensures VolumeAt(m - {x}, k)
      == VolumeAt(a - {x}, k).Plus(VolumeAt(b - {x}, k)).Plus(VolumeAt(c - {x}, k)) {
      assert VolumeAt(m, k) == VolumeAt(a, k).Plus(VolumeAt(b, k)).Plus(VolumeAt(c, k));
    }
  }

  lemma {:induction false} GatheredAdds<K(!new)>(m: map<K, Volume>, a: map<K, Volume>, b: map<K, Volume>,
                                                 c: map<K, Volume>)
    requires Adds(m, a, b, c)
    ensures Gathered(m) == Gathered(a).Plus(Gathered(b)).Plus(Gathered(c))
    decreases |m|
  {
    if m == map[] {
      NothingAdds(m, a, b, c);
    } else {
      var k :| k in m;
      hide *;
      AddsWithout(m, a, b, c, k);
      GatheredAdds(m - {k}, a - {k}, b - {k}, c - {k});
      MoreAdds(m, a, b, c, k);
    }
  }

  lemma MoreAdds<K(!new)>(m: map<K, Volume>, a: map<K, Volume>, b: map<K, Volume>, c: map<K, Volume>, k: K)
    requires Adds(m, a, b, c)
    requires Gathered(m - {k}) == Gathered(a - {k}).Plus(Gathered(b - {k})).Plus(Gathered(c - {k}))
    ensures Gathered(m) == Gathered(a).Plus(Gathered(b)).Plus(Gathered(c))
  {
    hide *;
    AddsAt(m, a, b, c, k);
    GatheredWithout(m, k);
    GatheredWithout(a, k);
    GatheredWithout(b, k);
    GatheredWithout(c, k);
    ThreeSums(VolumeAt(a, k), VolumeAt(b, k), VolumeAt(c, k), Gathered(a - {k}), Gathered(b - {k}), Gathered(c - {k}));
  }

  lemma NothingAdds<K(!new)>(m: map<K, Volume>, a: map<K, Volume>, b: map<K, Volume>, c: map<K, Volume>)
    requires Adds(m, a, b, c) && m == map[]
    ensures Gathered(m) == Gathered(a).Plus(Gathered(b)).Plus(Gathered(c))
  {
    assert a.Keys == {} && b.Keys == {} && c.Keys == {};
    assert a == map[] && b == map[] && c == map[];
  }

  lemma AddsAt<K(!new)>(m: map<K, Volume>, a: map<K, Volume>, b: map<K, Volume>, c: map<K, Volume>, x: K)
    requires Adds(m, a, b, c)
    ensures VolumeAt(m, x) == VolumeAt(a, x).Plus(VolumeAt(b, x)).Plus(VolumeAt(c, x))
  {
  }

  lemma ThreeSums(a: Volume, b: Volume, c: Volume, d: Volume, e: Volume, f: Volume)
    ensures a.Plus(b).Plus(c).Plus(d.Plus(e).Plus(f)) == a.Plus(d).Plus(b.Plus(e)).Plus(c.Plus(f))
  {
  }

  lemma WindowsAdd(fold: map<BucketKey, Volume>, live: map<BucketKey, Volume>, flight: map<BucketKey, Volume>,
                   db: map<BucketKey, Volume>, c: int, from: int, to: int, w: Weight)
    requires BucketsAddUp(fold, live, flight, db)
    ensures Traffic(Window(fold, c, from, to), w) ==
      Traffic(Window(db, c, from, to), w).Plus(Traffic(Window(flight, c, from, to), w)).Plus(
        Traffic(Window(live, c, from, to), w))
  {
    var f, d, i, l := Window(fold, c, from, to), Window(db, c, from, to), Window(flight, c, from, to),
                      Window(live, c, from, to);
    forall k ensures VolumeAt(Weighed(f, w), k)
      == VolumeAt(Weighed(d, w), k).Plus(VolumeAt(Weighed(i, w), k)).Plus(VolumeAt(Weighed(l, w), k))
    ensures k in f <==> k in d || k in i || k in l
    {
      assert BucketAddsUp(fold, live, flight, db, k);
      hide BucketAddsUp, Window, Volume.Plus, VolumeAt, Weighed;
      WindowAdds(fold, live, flight, db, c, from, to, k);
      WeighedAdds(f, d, i, l, w, k);
    }
    hide *;
    KeysAdd(f, d, i, l, w);
    GatheredAdds(Weighed(f, w), Weighed(d, w), Weighed(i, w), Weighed(l, w));
    GatheredIsTraffic(f, w);
    GatheredIsTraffic(d, w);
    GatheredIsTraffic(i, w);
    GatheredIsTraffic(l, w);
  }

  lemma GatheredIsTraffic(m: map<BucketKey, Volume>, w: Weight)
    ensures Traffic(m, w) == Gathered(Weighed(m, w))
  {
  }

  lemma KeysAdd(f: map<BucketKey, Volume>, d: map<BucketKey, Volume>, i: map<BucketKey, Volume>,
                l: map<BucketKey, Volume>, w: Weight)
    requires forall k {:trigger k in f} :: k in f <==> k in d || k in i || k in l
    requires forall k :: (VolumeAt(Weighed(f, w), k)
      == VolumeAt(Weighed(d, w), k).Plus(VolumeAt(Weighed(i, w), k)).Plus(VolumeAt(Weighed(l, w), k)))
    ensures Adds(Weighed(f, w), Weighed(d, w), Weighed(i, w), Weighed(l, w))
  {
    hide Volume.Plus, VolumeAt;
    assert f.Keys == d.Keys + i.Keys + l.Keys;
  }

  lemma WindowAdds(fold: map<BucketKey, Volume>, live: map<BucketKey, Volume>, flight: map<BucketKey, Volume>,
                   db: map<BucketKey, Volume>, c: int, from: int, to: int, k: BucketKey)
    requires BucketAddsUp(fold, live, flight, db, k)
    ensures VolumeAt(Window(fold, c, from, to), k) == VolumeAt(Window(db, c, from, to), k).Plus(
      VolumeAt(Window(flight, c, from, to), k)).Plus(VolumeAt(Window(live, c, from, to), k))
    ensures k in Window(fold, c, from, to) <==>
      k in Window(db, c, from, to) || k in Window(flight, c, from, to) || k in Window(live, c, from, to)
  {
    PlusLaws(NOTHING, NOTHING, NOTHING);
    hide Volume.Plus;
  }

  lemma WeighedAdds(f: map<BucketKey, Volume>, d: map<BucketKey, Volume>, i: map<BucketKey, Volume>,
                    l: map<BucketKey, Volume>, w: Weight, k: BucketKey)
    requires VolumeAt(f, k) == VolumeAt(d, k).Plus(VolumeAt(i, k)).Plus(VolumeAt(l, k))
    requires k in f <==> k in d || k in i || k in l
    ensures VolumeAt(Weighed(f, w), k)
      == VolumeAt(Weighed(d, w), k).Plus(VolumeAt(Weighed(i, w), k)).Plus(VolumeAt(Weighed(l, w), k))
  {
    hide Volume.Plus, Scaled;
    var n := w(k.edgeId);
    ScaledPlus(VolumeAt(d, k).Plus(VolumeAt(i, k)), VolumeAt(l, k), n);
    ScaledPlus(VolumeAt(d, k), VolumeAt(i, k), n);
  }

  /** At every moment of every run, what a window from one multiple of the bucket width to another shows, with what
      is still to be flushed for it, is the traffic of the capture's packets whose second lies in it. */
  lemma WindowShowsItsSeconds(settings: Settings, steps: seq<Step>, c: int, from: int, to: int, weight: Weight)
    requires settings.bucketSecs > 0 && After(settings, steps).Some?
    requires from % settings.bucketSecs == 0 && to % settings.bucketSecs == 0
    ensures var w := After(settings, steps).value;
      Traffic(Window(w.db.buckets, c, from, to), weight).Plus(Traffic(Window(w.flight.buckets, c, from, to), weight))
        .Plus(Traffic(Window(w.live.buckets, c, from, to), weight))
      == EventTraffic(Within(settings, OfCapture(w.events, c), from, to), weight)
  {
    hide After, Fold, Follows, Endings, Rows, BucketsAddUp, Traffic, Window;
    EveryRunIsConsistent(settings, steps);
    var w := After(settings, steps).value;
    FoldWindow(settings, w.events, c, from, to, weight);
    WindowsAdd(Fold(settings, w.events).buckets, w.live.buckets, w.flight.buckets, w.db.buckets, c, from, to, weight);
  }

  /** Of a capture that has ended the tables alone show it. */
  lemma EndedWindowShowsItsSeconds(settings: Settings, steps: seq<Step>, c: int, from: int, to: int, weight: Weight)
    requires settings.bucketSecs > 0 && After(settings, steps).Some? && c in After(settings, steps).value.forgotten
    requires from % settings.bucketSecs == 0 && to % settings.bucketSecs == 0
    ensures var w := After(settings, steps).value;
      Traffic(Window(w.db.buckets, c, from, to), weight)
      == EventTraffic(Within(settings, OfCapture(w.events, c), from, to), weight)
  {
    hide After, Fold, Traffic;
    EndedCaptureIsStored(settings, steps, c);
    var w := After(settings, steps).value;
    FoldWindow(settings, w.events, c, from, to, weight);
    assert Window(w.db.buckets, c, from, to) == Window(CaptureBuckets(w.db.buckets, c), c, from, to);
    var fold := Fold(settings, w.events).buckets;
    assert Window(fold, c, from, to) == Window(CaptureBuckets(fold, c), c, from, to);
  }

  // ---- who sent it ----

  lemma {:induction false} WithinIsOwn(settings: Settings, own: seq<Event>, from: int, to: int)
    requires IdsOk(own)
    ensures IdsOk(Within(settings, own, from, to))
  {
    hide InSpan, IsId;
    if own != [] {
      assert IdsOk(own[..|own| - 1]);
      WithinIsOwn(settings, own[..|own| - 1], from, to);
    }
  }

  /** In an ended capture's window, the edge between `a` and `b` counts forward what `a` sent to `b` in its seconds, and
      in reverse what came back. */
  lemma WindowBySender(settings: Settings, steps: seq<Step>, c: int, from: int, to: int, a: string, b: string)
    requires settings.bucketSecs > 0 && After(settings, steps).Some? && c in After(settings, steps).value.forgotten
    requires from % settings.bucketSecs == 0 && to % settings.bucketSecs == 0
    requires IdsOk(OfCapture(After(settings, steps).value.events, c))
    requires IsId(a) && IsId(b) && !Less(b, a)
    ensures var w := After(settings, steps).value;
      BySender(RAW, a, b, Within(settings, OfCapture(w.events, c), from, to),
               Traffic(Window(w.db.buckets, c, from, to), OnlyEdge(EdgeId(a, b))))
  {
    LessIsTotal(a, b);
    hide After, Traffic, Window, Within, Less, Plain, BySender, EventTraffic, OnlyEdge, EdgeSum, EdgeId, IdsOk,
         AllPlain;
    var w := After(settings, steps).value;
    var own := OfCapture(w.events, c);
    var seen := Within(settings, own, from, to);
    EndedWindowShowsItsSeconds(settings, steps, c, from, to, OnlyEdge(EdgeId(a, b)));
    WithinIsOwn(settings, own, from, to);
    RawIsPlain(seen);
    EdgeTrafficIsSum(seen, EdgeId(a, b));
    EdgeSumBySender(RAW, a, b, seen);
  }
}
