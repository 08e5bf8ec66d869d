/** When the browser's data set holds what the server last sent (server/websocket.go buildDelta, buildCountsFrame;
    static/app.js updateGraph, applyCountsFrame). Stated once for nodes and edges. */
module MirrorSync {
  import opened GraphState
  import opened Views
  import opened ClientDiff
  import opened Mirror

  /** What the protocol needs to know of nodes or of edges. */
  datatype Kind<!T, !V> = Kind(key: T -> string, same: (T, T) -> bool, sig: T -> string,
                               val: T -> V, put: (T, V) -> T, zero: V, le: (V, V) -> bool)

  /** The drawing signature depends on no more than render equality compares. */
  ghost predicate Respects<T(!new), V(!new)>(kind: Kind<T, V>) {
    forall a, b :: kind.same(a, b) ==> kind.sig(a) == kind.sig(b)
  }

  ghost predicate Ordered<T(!new), V(!new)>(kind: Kind<T, V>) {
    && (forall v :: kind.le(v, v))
    && (forall u, v, w :: kind.le(u, v) && kind.le(v, w) ==> kind.le(u, w))
    && (forall u, v :: kind.le(u, v) && kind.le(v, u) ==> u == v)
  }

  ghost predicate Counting<T(!new), V(!new)>(kind: Kind<T, V>) {
    forall t, item :: kind.same(t, item) ==>
      kind.same(kind.put(t, kind.val(item)), item) && kind.val(kind.put(t, kind.val(item))) == kind.val(item)
  }

  ghost predicate Lawful<T(!new), V(!new)>(kind: Kind<T, V>) {
    Equivalence(kind.same) && Ordered(kind) && Counting(kind)
  }

  // ---- putting items, key by key ----

  ghost predicate CoherentAt<T(!new), V(!new)>(kind: Kind<T, V>, t: Table<T>, k: string) {
    k in t.shown ==> k in t.meta && k in t.sigs && t.sigs[k] == kind.sig(t.shown[k])
  }

  ghost predicate Coherent<T(!new), V(!new)>(kind: Kind<T, V>, t: Table<T>) {
    forall k :: CoherentAt(kind, t, k)
  }

  ghost predicate SameAt<T>(a: Table<T>, b: Table<T>, k: string) {
    && (k in a.meta <==> k in b.meta) && (k in a.meta ==> a.meta[k] == b.meta[k])
    && (k in a.shown <==> k in b.shown) && (k in a.shown ==> a.shown[k] == b.shown[k])
    && (k in a.sigs <==> k in b.sigs) && (k in a.sigs ==> a.sigs[k] == b.sigs[k])
  }

  /** The table holds `item` under `k`, drawn under its signature. */
  ghost predicate HoldsAt<T(!new), V(!new)>(kind: Kind<T, V>, t: Table<T>, k: string, item: T) {
    k in t.meta && t.meta[k] == item && k in t.shown && k in t.sigs
      && t.sigs[k] == kind.sig(item) == kind.sig(t.shown[k])
  }

  lemma PutAt<T(!new), V(!new)>(kind: Kind<T, V>, t: Table<T>, item: T, k: string)
    requires CoherentAt(kind, t, k)
    ensures kind.key(item) == k ==> HoldsAt(kind, Put(t, kind.key(item), kind.sig(item), item), k, item)
    ensures kind.key(item) != k ==> SameAt(Put(t, kind.key(item), kind.sig(item), item), t, k)
    ensures CoherentAt(kind, Put(t, kind.key(item), kind.sig(item), item), k)
  {
  }

  lemma {:induction false} PutAllAt<T(!new), V(!new)>(kind: Kind<T, V>, t: Table<T>, items: seq<T>, k: string, item: T)
    requires CoherentAt(kind, t, k)
    requires forall i :: 0 <= i < |items| && kind.key(items[i]) == k ==> items[i] == item
    ensures item in items && kind.key(item) == k ==> HoldsAt(kind, PutAll(t, kind.key, kind.sig, items), k, item)
    ensures !(item in items && kind.key(item) == k) ==> SameAt(PutAll(t, kind.key, kind.sig, items), t, k)
    ensures CoherentAt(kind, PutAll(t, kind.key, kind.sig, items), k)
  {
    hide Put, HoldsAt, CoherentAt, SameAt;
    if items == [] {
      SameAsItself(t, k);
    } else {
      var past, last := items[..|items| - 1], items[|items| - 1];
      PutAllAt(kind, t, past, k, item);
      PutAt(kind, PutAll(t, kind.key, kind.sig, past), last, k);
      assert items == past + [last];
      if kind.key(last) != k {
        SameAfter(kind, PutAll(t, kind.key, kind.sig, items), PutAll(t, kind.key, kind.sig, past), t, k, item);
      }
    }
  }

  lemma SameAsItself<T>(t: Table<T>, k: string)
    ensures SameAt(t, t, k)
  {
  }

  lemma SameAfter<T(!new), V(!new)>(kind: Kind<T, V>, a: Table<T>, b: Table<T>, c: Table<T>, k: string, item: T)
    requires SameAt(a, b, k)
    ensures SameAt(b, c, k) ==> SameAt(a, c, k)
    ensures HoldsAt(kind, b, k, item) ==> HoldsAt(kind, a, k, item)
  {
  }

  lemma {:induction false} PutAllShown<T(!new), V(!new)>(kind: Kind<T, V>, t: Table<T>, items: seq<T>)
    ensures PutAll(t, kind.key, kind.sig, items).shown.Keys == t.shown.Keys + Keys(kind.key, items)
  {
    if items != [] {
      KeysGrow(kind.key, items);
      hide Keys;
      PutAllShown(kind, t, items[..|items| - 1]);
    }
  }

  lemma {:induction false} PutAllAppend<T(!new)>(t: Table<T>, key: T -> string, sig: T -> string, a: seq<T>, b: seq<T>)
    ensures PutAll(t, key, sig, a + b) == PutAll(PutAll(t, key, sig, a), key, sig, b)
  {
    hide Put;
    if b == [] {
      assert a + b == a;
    } else {
      assert (a + b)[..|a + b| - 1] == a + b[..|b| - 1];
      PutAllAppend(t, key, sig, a, b[..|b| - 1]);
    }
  }

  // ---- in step with the server ----

  /** The browser shows exactly the server's last view: the same ids, each render-equal and drawn as it should be. */
  ghost predicate Tracks<T(!new), V(!new)>(kind: Kind<T, V>, t: Table<T>, last: map<string, T>) {
    t.shown.Keys == last.Keys && forall k :: k in last ==> TracksAt(kind, t, k, last[k])
  }

  ghost predicate TracksAt<T(!new), V(!new)>(kind: Kind<T, V>, t: Table<T>, k: string, item: T) {
    && k in t.meta && kind.same(t.meta[k], item)
    && k in t.shown && k in t.sigs && t.sigs[k] == kind.sig(t.shown[k])
    && (Respects(kind) ==> t.sigs[k] == kind.sig(item))
  }

  lemma HoldsTracks<T(!new), V(!new)>(kind: Kind<T, V>, t: Table<T>, k: string, item: T)
    requires Lawful(kind) && HoldsAt(kind, t, k, item)
    ensures TracksAt(kind, t, k, item)
  {
  }

  lemma HoldsData<T(!new), V(!new)>(kind: Kind<T, V>, t: Table<T>, k: string, item: T)
    requires HoldsAt(kind, t, k, item)
    ensures k in t.meta && t.meta[k] == item
  {
  }

  lemma SameData<T(!new), V(!new)>(kind: Kind<T, V>, t': Table<T>, t: Table<T>, k: string, item: T)
    requires SameAt(t', t, k) && TracksAt(kind, t, k, item)
    ensures k in t.meta && k in t'.meta && t'.meta[k] == t.meta[k]
  {
  }

  /** The data under each id is the item just sent, or, where none was, what was there. */
  ghost predicate Carried<T>(t: Table<T>, t': Table<T>, last: map<string, T>, now: map<string, T>, full: bool) {
    forall k :: k in now ==> CarriedAt(t, t', last, k, now[k], full)
  }

  ghost predicate CarriedAt<T>(t: Table<T>, t': Table<T>, last: map<string, T>, k: string, item: T, full: bool) {
    k in t'.meta && (t'.meta[k] == item || (!full && k in last && k in t.meta && t'.meta[k] == t.meta[k]))
  }

  lemma StillTracks<T(!new), V(!new)>(kind: Kind<T, V>, t: Table<T>, t': Table<T>, k: string, before: T, item: T)
    requires Lawful(kind) && TracksAt(kind, t, k, before) && SameAt(t', t, k) && kind.same(before, item)
    ensures TracksAt(kind, t', k, item)
  {
    hide Ordered, Counting;
  }

  lemma {:induction false} ChangedItems<T(!new)>(key: T -> string, same: (T, T) -> bool, last: map<string, T>,
                                          items: seq<T>, full: bool)
    ensures forall x :: x in Changed(key, same, last, items, full) <==>
      x in items && (full || key(x) !in last || !same(last[key(x)], x))
  {
    if items != [] {
      ChangedItems(key, same, last, items[..|items| - 1], full);
      assert items == items[..|items| - 1] + [items[|items| - 1]];
    }
  }

  lemma OneItem<T(!new)>(key: T -> string, items: seq<T>, x: T, y: T)
    requires Distinct(key, items) && x in items && y in items && key(x) == key(y)
    ensures x == y
  {
  }

  lemma KeyOf<T(!new)>(key: T -> string, items: seq<T>, x: T)
    requires x in items
    ensures key(x) in Keys(key, items)
  {
  }

  /** A delta brings a browser in step with one view into step with the next. */
  lemma DeltaTracks<T(!new), V(!new)>(kind: Kind<T, V>, t: Table<T>, last: map<string, T>, items: seq<T>,
                      removed: seq<string>, full: bool)
    requires Lawful(kind) && Distinct(kind.key, items) && Coherent(kind, t) && Tracks(kind, t, last)
    requires Lists(removed, last.Keys - Keys(kind.key, items))
    ensures var t' :=
      PutAll(Dropped(t, IdSet(removed)), kind.key, kind.sig, Changed(kind.key, kind.same, last, items, full));
      Tracks(kind, t', ById(kind.key, items)) && Coherent(kind, t') && Carried(t, t', last, ById(kind.key, items), full)
  {
    hide PutAll, Changed, Lawful, ById, Keys, TracksAt, CoherentAt, Distinct, Dropped, CarriedAt;
    var base, sent := Dropped(t, IdSet(removed)), Changed(kind.key, kind.same, last, items, full);
    var t' := PutAll(base, kind.key, kind.sig, sent);
    var now := ById(kind.key, items);
    ByIdOf(kind.key, items);
    DroppedKeys(t, IdSet(removed));
    PutAllShown(kind, base, sent);
    SentKeys(kind.key, kind.same, last, items, full);
    assert t'.shown.Keys == now.Keys by {
      assert t'.shown.Keys == t.shown.Keys - IdSet(removed) + Keys(kind.key, sent);
      assert forall id :: id in IdSet(removed) <==> id in last.Keys - Keys(kind.key, items);
    }
    forall k ensures CoherentAt(kind, t', k)
      && (k in now ==> TracksAt(kind, t', k, now[k]) && CarriedAt(t, t', last, k, now[k], full)) {
      DroppedCoherent(kind, t, IdSet(removed), k);
      if k in now {
        assert k !in IdSet(removed);
        DeltaTracksAt(kind, t, last, items, IdSet(removed), full, k, now[k]);
      } else {
        NotSent(kind, base, items, sent, last, full, k);
      }
    }
  }

  lemma DroppedKeys<T>(t: Table<T>, ids: set<string>)
    ensures Dropped(t, ids).shown.Keys == t.shown.Keys - ids
  {
  }

  lemma DroppedCoherent<T(!new), V(!new)>(kind: Kind<T, V>, t: Table<T>, ids: set<string>, k: string)
    requires CoherentAt(kind, t, k)
    ensures CoherentAt(kind, Dropped(t, ids), k)
    ensures k !in ids ==> SameAt(Dropped(t, ids), t, k)
  {
  }

  lemma SentKeys<T(!new)>(key: T -> string, same: (T, T) -> bool, last: map<string, T>, items: seq<T>, full: bool)
    ensures Keys(key, Changed(key, same, last, items, full)) <= Keys(key, items)
    ensures forall k :: k in Keys(key, items) && k !in last ==> k in Keys(key, Changed(key, same, last, items, full))
  {
    hide Changed;
    var sent := Changed(key, same, last, items, full);
    ChangedItems(key, same, last, items, full);
    forall k | k in Keys(key, sent) ensures k in Keys(key, items) {
      var i :| 0 <= i < |sent| && key(sent[i]) == k;
      KeyOf(key, items, sent[i]);
    }
    forall k | k in Keys(key, items) && k !in last ensures k in Keys(key, sent) {
      var i :| 0 <= i < |items| && key(items[i]) == k;
      KeyOf(key, sent, items[i]);
    }
  }

  lemma NotSent<T(!new), V(!new)>(kind: Kind<T, V>, base: Table<T>, items: seq<T>, sent: seq<T>, last: map<string, T>,
                  full: bool, k: string)
    requires CoherentAt(kind, base, k) && sent == Changed(kind.key, kind.same, last, items, full)
      && k !in Keys(kind.key, items)
    ensures CoherentAt(kind, PutAll(base, kind.key, kind.sig, sent), k)
  {
    hide PutAll, Changed, CoherentAt;
    SentKeys(kind.key, kind.same, last, items, full);
    if sent != [] {
      assert forall i :: 0 <= i < |sent| ==> kind.key(sent[i]) in Keys(kind.key, sent);
      PutAllAt(kind, base, sent, k, sent[0]);
    } else {
      NothingPut(base, kind.key, kind.sig);
    }
  }

  lemma NothingPut<T(!new)>(t: Table<T>, key: T -> string, sig: T -> string)
    ensures PutAll(t, key, sig, []) == t
  {
  }

  lemma DeltaTracksAt<T(!new), V(!new)>(kind: Kind<T, V>, t: Table<T>, last: map<string, T>, items: seq<T>,
                        gone: set<string>, full: bool, k: string, item: T)
    requires Lawful(kind) && Distinct(kind.key, items) && CoherentAt(kind, t, k)
      && (k in last ==> TracksAt(kind, t, k, last[k]))
    requires k !in gone && item in items && kind.key(item) == k
    ensures var t' := PutAll(Dropped(t, gone), kind.key, kind.sig, Changed(kind.key, kind.same, last, items, full));
      TracksAt(kind, t', k, item) && CoherentAt(kind, t', k) && CarriedAt(t, t', last, k, item, full)
  {
    hide PutAll, Changed, Lawful, TracksAt, CoherentAt, HoldsAt, SameAt, Dropped, Distinct;
    var base, sent := Dropped(t, gone), Changed(kind.key, kind.same, last, items, full);
    ChangedItems(kind.key, kind.same, last, items, full);
    DroppedCoherent(kind, t, gone, k);
    forall i | 0 <= i < |sent| && kind.key(sent[i]) == k ensures sent[i] == item {
      assert sent[i] in sent;
      OneItem(kind.key, items, sent[i], item);
    }
    PutAllAt(kind, base, sent, k, item);
    if item in sent {
      HoldsTracks(kind, PutAll(base, kind.key, kind.sig, sent), k, item);
      HoldsData(kind, PutAll(base, kind.key, kind.sig, sent), k, item);
    } else {
      SameAfter(kind, PutAll(base, kind.key, kind.sig, sent), base, t, k, item);
      SameData(kind, PutAll(base, kind.key, kind.sig, sent), t, k, last[k]);
      StillTracks(kind, t, PutAll(base, kind.key, kind.sig, sent), k, last[k], item);
    }
  }

  /** A complete full snapshot brings any browser into step, whatever it showed before. */
  lemma FullTracks<T(!new), V(!new)>(kind: Kind<T, V>, t: Table<T>, items: seq<T>, shipped: seq<T>,
                     removed: set<string>)
    requires Lawful(kind) && Distinct(kind.key, items) && Coherent(kind, t) && forall x :: x in shipped <==> x in items
    ensures var t' := PutAll(Dropped(t, removed), kind.key, kind.sig, shipped);
      var t'' := Dropped(t', t'.shown.Keys - Keys(kind.key, items));
      Tracks(kind, t'', ById(kind.key, items)) && Coherent(kind, t'')
        && Carried(t, t'', map[], ById(kind.key, items), true)
  {
    hide PutAll, Lawful, ById, Keys, TracksAt, CoherentAt, Distinct, Dropped, CarriedAt;
    var base := Dropped(t, removed);
    var t' := PutAll(base, kind.key, kind.sig, shipped);
    var stale := t'.shown.Keys - Keys(kind.key, items);
    var t'' := Dropped(t', stale);
    var now := ById(kind.key, items);
    ByIdOf(kind.key, items);
    PutAllShown(kind, base, shipped);
    DroppedKeys(t', stale);
    SameKeys(kind.key, items, shipped);
    forall k ensures CoherentAt(kind, t'', k)
      && (k in now ==> TracksAt(kind, t'', k, now[k]) && CarriedAt(t, t'', map[], k, now[k], true)) {
      DroppedCoherent(kind, t, removed, k);
      FullTracksAt(kind, t, base, items, shipped, stale, k);
    }
  }

  lemma SameKeys<T(!new)>(key: T -> string, a: seq<T>, b: seq<T>)
    requires forall x :: x in a <==> x in b
    ensures Keys(key, a) == Keys(key, b)
  {
    forall k ensures k in Keys(key, a) <==> k in Keys(key, b) {
      if k in Keys(key, a) { var i :| 0 <= i < |a| && key(a[i]) == k; KeyOf(key, b, a[i]); }
      if k in Keys(key, b) { var i :| 0 <= i < |b| && key(b[i]) == k; KeyOf(key, a, b[i]); }
    }
  }

  lemma FullTracksAt<T(!new), V(!new)>(kind: Kind<T, V>, t: Table<T>, base: Table<T>, items: seq<T>, shipped: seq<T>,
                       stale: set<string>, k: string)
    requires Lawful(kind) && Distinct(kind.key, items) && CoherentAt(kind, base, k)
      && (forall x :: x in shipped <==> x in items)
    requires stale !! Keys(kind.key, items)
    ensures var t'' := Dropped(PutAll(base, kind.key, kind.sig, shipped), stale);
      CoherentAt(kind, t'', k) && (k in ById(kind.key, items) ==>
        TracksAt(kind, t'', k, ById(kind.key, items)[k]) && CarriedAt(t, t'', map[], k, ById(kind.key, items)[k], true))
  {
    hide PutAll, Lawful, ById, TracksAt, CoherentAt, HoldsAt, SameAt, Distinct, Dropped;
    var t' := PutAll(base, kind.key, kind.sig, shipped);
    ByIdOf(kind.key, items);
    if k in ById(kind.key, items) {
      var item := ById(kind.key, items)[k];
      forall i | 0 <= i < |shipped| && kind.key(shipped[i]) == k ensures shipped[i] == item {
        assert shipped[i] in shipped;
        OneItem(kind.key, items, shipped[i], item);
      }
      PutAllAt(kind, base, shipped, k, item);
      DroppedCoherent(kind, t', stale, k);
      SameAfter(kind, Dropped(t', stale), t', t', k, item);
      HoldsTracks(kind, Dropped(t', stale), k, item);
      HoldsData(kind, Dropped(t', stale), k, item);
    } else {
      assert forall i :: 0 <= i < |shipped| ==> shipped[i] in shipped;
      assert forall i :: 0 <= i < |shipped| ==> kind.key(shipped[i]) in Keys(kind.key, items) by {
        forall i | 0 <= i < |shipped| ensures kind.key(shipped[i])
          in Keys(kind.key, items) { KeyOf(kind.key, items, shipped[i]); }
      }
      if shipped != [] {
        PutAllAt(kind, base, shipped, k, shipped[0]);
      } else {
        NothingPut(base, kind.key, kind.sig);
      }
      DroppedCoherent(kind, t', stale, k);
    }
  }

  // ---- counters ----

  /** Counters never decrease and are never negative, from one view to the next. */
  ghost predicate Growing<T(!new), V(!new)>(kind: Kind<T, V>, seen: map<string, V>, items: seq<T>) {
    forall x :: x in items ==>
      kind.le(kind.zero, kind.val(x)) && (kind.key(x) in seen ==> kind.le(seen[kind.key(x)], kind.val(x)))
  }

  /** What the server remembers having sent is no more than what the browser holds, and that no more
      than was ever shown. */
  ghost predicate Between<T(!new), V(!new)>(kind: Kind<T, V>, t: Table<T>, base: map<string, V>, last: map<string, T>,
                            seen: map<string, V>) {
    && (forall k {:trigger k in last} :: k in last ==>
          k in t.meta && k in seen && kind.le(OrZero(base, k, kind.zero), kind.val(t.meta[k]))
            && kind.le(kind.val(t.meta[k]), seen[k]))
    && (forall k {:trigger k in base} :: k in base ==> k in seen && kind.le(base[k], seen[k]))
  }

  function Shown<T(!new), V(!new)>(kind: Kind<T, V>, seen: map<string, V>, items: seq<T>): map<string, V> {
    seen + Mapped(kind.key, kind.val, items)
  }

  lemma ShownAt<T(!new), V(!new)>(kind: Kind<T, V>, seen: map<string, V>, items: seq<T>, k: string)
    requires Distinct(kind.key, items)
    ensures k in Shown(kind, seen, items) <==> k in seen || k in ById(kind.key, items)
    ensures k in ById(kind.key, items) ==> ById(kind.key, items)[k] in items && kind.key(ById(kind.key, items)[k]) == k
    ensures k in ById(kind.key, items) ==> Shown(kind, seen, items)[k] == kind.val(ById(kind.key, items)[k])
    ensures k !in ById(kind.key, items) && k in seen ==> Shown(kind, seen, items)[k] == seen[k]
  {
    hide Distinct;
    ByIdOf(kind.key, items);
    MappedOf(kind.key, kind.val, items);
    if k in ById(kind.key, items) {
      var i :| 0 <= i < |items| && kind.key(items[i]) == k;
    }
  }

  lemma DeltaBetween<T(!new), V(!new)>(kind: Kind<T, V>, t: Table<T>, t': Table<T>, base: map<string, V>,
                       last: map<string, T>, seen: map<string, V>, items: seq<T>, full: bool)
    requires Lawful(kind) && Distinct(kind.key, items) && Growing(kind, seen, items)
    requires Between(kind, t, base, last, seen) && Carried(t, t', last, ById(kind.key, items), full)
    ensures Between(kind, t', base, ById(kind.key, items), Shown(kind, seen, items))
  {
    hide Shown, ById, Distinct, Equivalence, Counting;
    var now, seen' := ById(kind.key, items), Shown(kind, seen, items);
    forall k | k in now
      ensures k in t'.meta && k in seen' && kind.le(OrZero(base, k, kind.zero), kind.val(t'.meta[k]))
        && kind.le(kind.val(t'.meta[k]), seen'[k])
    {
      ShownAt(kind, seen, items, k);
      assert CarriedAt(t, t', last, k, now[k], full);
    }
    forall k | k in base ensures k in seen' && kind.le(base[k], seen'[k]) {
      ShownAt(kind, seen, items, k);
    }
  }

  /** Right after a full snapshot the baseline is what the browser holds. */
  lemma BaselineBetween<T(!new), V(!new)>(kind: Kind<T, V>, t: Table<T>, t': Table<T>, last: map<string, T>,
                          seen: map<string, V>, items: seq<T>, full: bool)
    requires Lawful(kind) && Distinct(kind.key, items) && Carried(t, t', last, ById(kind.key, items), full)
      && (full || last == map[])
    ensures Between(kind, t', Mapped(kind.key, kind.val, items), ById(kind.key, items), Shown(kind, seen, items))
    ensures CountsAgree(kind, t', items)
  {
    hide Shown, Distinct, Equivalence, Counting, ById, Mapped;
    var now, seen', base := ById(kind.key, items), Shown(kind, seen, items), Mapped(kind.key, kind.val, items);
    MappedIsCounts(kind, items);
    forall k | k in now
      ensures k in t'.meta && t'.meta[k] == now[k] && k in seen'
        && kind.le(OrZero(base, k, kind.zero), kind.val(t'.meta[k])) && kind.le(kind.val(t'.meta[k]), seen'[k])
    {
      ShownAt(kind, seen, items, k);
      assert CarriedAt(t, t', last, k, now[k], full);
    }
    forall k | k in base ensures k in seen' && kind.le(base[k], seen'[k]) {
      ShownAt(kind, seen, items, k);
    }
    ByIdOf(kind.key, items);
  }

  lemma MappedIsCounts<T(!new), V(!new)>(kind: Kind<T, V>, items: seq<T>)
    requires Distinct(kind.key, items)
    ensures var base := Mapped(kind.key, kind.val, items);
      base.Keys == ById(kind.key, items).Keys && forall k :: k in base ==> base[k] == kind.val(ById(kind.key, items)[k])
  {
  }

  /** The browser holds the view's counters. */
  ghost predicate CountsAgree<T(!new), V(!new)>(kind: Kind<T, V>, t: Table<T>, items: seq<T>) {
    forall i :: 0 <= i < |items| ==>
      kind.key(items[i]) in t.meta && kind.val(t.meta[kind.key(items[i])]) == kind.val(items[i])
  }

  /** A counts frame changes counters only: the browser stays in step. */
  lemma FrameTracks<T(!new), V(!new)>(kind: Kind<T, V>, t: Table<T>, items: seq<T>, base: map<string, V>,
                      frame: map<string, V>, base': map<string, V>)
    requires Lawful(kind) && Distinct(kind.key, items) && Coherent(kind, t) && Tracks(kind, t, ById(kind.key, items))
    requires Refreshed(kind.key, kind.val, kind.zero, base, items, frame, base')
    ensures var t' := Recounted(t, kind.put, frame);
      Coherent(kind, t') && Tracks(kind, t', ById(kind.key, items))
  {
    hide Distinct, ById, Lawful, TracksAt, CoherentAt, Recounted, Refreshed;
    var t', now := Recounted(t, kind.put, frame), ById(kind.key, items);
    ByIdOf(kind.key, items);
    forall k ensures CoherentAt(kind, t', k) { RecountCoherent(kind, t, frame, k); }
    RecountedShown(t, kind.put, frame);
    forall k | k in now ensures TracksAt(kind, t', k, now[k]) {
      FrameTracksAt(kind, t, items, base, frame, base', k, now[k]);
    }
  }

  lemma RecountedShown<T, V>(t: Table<T>, put: (T, V) -> T, counts: map<string, V>)
    ensures Recounted(t, put, counts).shown == t.shown
  {
  }

  lemma RecountCoherent<T(!new), V(!new)>(kind: Kind<T, V>, t: Table<T>, counts: map<string, V>, k: string)
    requires CoherentAt(kind, t, k)
    ensures CoherentAt(kind, Recounted(t, kind.put, counts), k)
  {
  }

  lemma CountingAt<T(!new), V(!new)>(kind: Kind<T, V>, t: T, item: T)
    requires Lawful(kind) && kind.same(t, item)
    ensures kind.same(kind.put(t, kind.val(item)), item) && kind.val(kind.put(t, kind.val(item))) == kind.val(item)
  {
  }

  lemma FrameTracksAt<T(!new), V(!new)>(kind: Kind<T, V>, t: Table<T>, items: seq<T>, base: map<string, V>,
                        frame: map<string, V>,
                                        base': map<string, V>, k: string, item: T)
    requires Lawful(kind) && item in items && kind.key(item) == k && TracksAt(kind, t, k, item)
    requires Refreshed(kind.key, kind.val, kind.zero, base, items, frame, base')
    ensures TracksAt(kind, Recounted(t, kind.put, frame), k, item)
  {
    hide Respects, Lawful, Keys;
    var i :| 0 <= i < |items| && items[i] == item;
    CountingAt(kind, t.meta[k], item);
  }

  /** A counts frame lists only what changed since the last frame, yet makes every counter agree. */
  lemma FrameLands<T(!new), V(!new)>(kind: Kind<T, V>, t: Table<T>, items: seq<T>, base: map<string, V>,
                     frame: map<string, V>,
                                     base': map<string, V>, seen: map<string, V>)
    requires Lawful(kind) && Distinct(kind.key, items) && Tracks(kind, t, ById(kind.key, items))
    requires Between(kind, t, base, ById(kind.key, items), Shown(kind, seen, items))
    requires Refreshed(kind.key, kind.val, kind.zero, base, items, frame, base')
    ensures var t' := Recounted(t, kind.put, frame);
      CountsAgree(kind, t', items) && Between(kind, t', base', ById(kind.key, items), Shown(kind, seen, items))
  {
    hide Distinct, ById, Shown, Lawful, TracksAt, Recounted, Between, Refreshed;
    var t', now := Recounted(t, kind.put, frame), ById(kind.key, items);
    ByIdOf(kind.key, items);
    forall i | 0 <= i < |items|
      ensures kind.key(items[i]) in t'.meta && kind.val(t'.meta[kind.key(items[i])]) == kind.val(items[i])
    {
      ShownAt(kind, seen, items, kind.key(items[i]));
      FrameLandsAt(kind, t, items, base, frame, base', Shown(kind, seen, items), kind.key(items[i]), items[i]);
    }
    AgreeBetween(kind, t', items, base, frame, base', seen);
  }

  lemma AgreeBetween<T(!new), V(!new)>(kind: Kind<T, V>, t': Table<T>, items: seq<T>, base: map<string, V>,
                       frame: map<string, V>,
                                       base': map<string, V>, seen: map<string, V>)
    requires Lawful(kind) && Distinct(kind.key, items) && CountsAgree(kind, t', items)
    requires Refreshed(kind.key, kind.val, kind.zero, base, items, frame, base')
    ensures Between(kind, t', base', ById(kind.key, items), Shown(kind, seen, items))
  {
    hide Distinct, ById, Shown, Lawful;
    ByIdOf(kind.key, items);
    forall k | k in ById(kind.key, items) ensures k in t'.meta && k in Shown(kind, seen, items)
      && kind.le(OrZero(base', k, kind.zero), kind.val(t'.meta[k]))
        && kind.le(kind.val(t'.meta[k]), Shown(kind, seen, items)[k])
    {
      ShownAt(kind, seen, items, k);
      var i :| 0 <= i < |items| && kind.key(items[i]) == k;
      LeItself(kind, kind.val(items[i]));
    }
    forall k | k in base' ensures k in Shown(kind, seen, items) && kind.le(base'[k], Shown(kind, seen, items)[k]) {
      ShownAt(kind, seen, items, k);
      var i :| 0 <= i < |items| && kind.key(items[i]) == k;
      LeItself(kind, kind.val(items[i]));
    }
  }

  lemma LeItself<T(!new), V(!new)>(kind: Kind<T, V>, v: V)
    requires Lawful(kind)
    ensures kind.le(v, v)
  {
  }

  lemma FrameLandsAt<T(!new), V(!new)>(kind: Kind<T, V>, t: Table<T>, items: seq<T>, base: map<string, V>,
                       frame: map<string, V>,
                                       base': map<string, V>, seen: map<string, V>, k: string, item: T)
    requires Lawful(kind) && item in items && kind.key(item) == k && TracksAt(kind, t, k, item)
    requires Refreshed(kind.key, kind.val, kind.zero, base, items, frame, base')
    requires Between(kind, t, base, ById(kind.key, items), seen) && k in ById(kind.key, items) && k in seen
      && seen[k] == kind.val(item)
    ensures k in Recounted(t, kind.put, frame).meta && kind.val(Recounted(t, kind.put, frame).meta[k]) == kind.val(item)
  {
    hide Respects, Equivalence, Keys, ById;
    var i :| 0 <= i < |items| && items[i] == item;
  }
}
