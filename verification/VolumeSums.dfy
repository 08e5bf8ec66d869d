/** Sums of traffic volumes over sequences, and the exchange of two summations. */
module VolumeSums {
  import opened GraphState

  /** One row's share of all events. */
  function RowSum<R, E>(row: R, events: seq<E>, share: (R, E) -> Volume): Volume {
    if events == [] then NOTHING
    else RowSum(row, events[..|events| - 1], share).Plus(share(row, events[|events| - 1]))
  }

  /** All rows' shares of one event. */
  function EventSum<R, E>(rows: seq<R>, event: E, share: (R, E) -> Volume): Volume {
    if rows == [] then NOTHING
    else EventSum(rows[..|rows| - 1], event, share).Plus(share(rows[|rows| - 1], event))
  }

  function ByRows<R, E>(rows: seq<R>, events: seq<E>, share: (R, E) -> Volume): Volume {
    if rows == [] then NOTHING
    else ByRows(rows[..|rows| - 1], events, share).Plus(RowSum(rows[|rows| - 1], events, share))
  }

  function ByEvents<R, E>(rows: seq<R>, events: seq<E>, share: (R, E) -> Volume): Volume {
    if events == [] then NOTHING
    else ByEvents(rows, events[..|events| - 1], share).Plus(EventSum(rows, events[|events| - 1], share))
  }

  lemma {:induction false} OneMoreRow<R, E>(rows: seq<R>, events: seq<E>, share: (R, E) -> Volume)
    requires rows != []
    ensures ByEvents(rows, events, share)
      == ByEvents(rows[..|rows| - 1], events, share).Plus(RowSum(rows[|rows| - 1], events, share))
    decreases |events|
  {
    hide Volume.Plus;
    PlusLaws(NOTHING, NOTHING, NOTHING);
    if events != [] {
      var past, rest := events[..|events| - 1], rows[..|rows| - 1];
      OneMoreRow(rows, past, share);
      Interchange(ByEvents(rest, past, share), RowSum(rows[|rows| - 1], past, share),
                  EventSum(rest, events[|events| - 1], share), share(rows[|rows| - 1], events[|events| - 1]));
    }
  }

  lemma Interchange(a: Volume, b: Volume, c: Volume, d: Volume)
    ensures a.Plus(b).Plus(c.Plus(d)) == a.Plus(c).Plus(b.Plus(d))
  {
  }

  lemma {:induction false} EmptyByEvents<R, E>(events: seq<E>, share: (R, E) -> Volume)
    ensures ByEvents([], events, share) == NOTHING
  {
    if events != [] {
      EmptyByEvents(events[..|events| - 1], share);
    }
  }

  /** Summing row by row is summing event by event. */
  lemma {:induction false} Exchange<R, E>(rows: seq<R>, events: seq<E>, share: (R, E) -> Volume)
    ensures ByRows(rows, events, share) == ByEvents(rows, events, share)
  {
    hide Volume.Plus;
    if rows == [] {
      EmptyByEvents<R, E>(events, share);
    } else {
      Exchange(rows[..|rows| - 1], events, share);
      OneMoreRow(rows, events, share);
    }
  }

  // ---- sums over tables, independent of the order of their entries ----

  ghost function Gathered<K>(m: map<K, Volume>): Volume {
    if m == map[] then NOTHING
    else
      var k :| k in m;
      m[k].Plus(Gathered(m - {k}))
  }

  lemma {:induction false} GatheredRemove<K>(m: map<K, Volume>, x: K)
    requires x in m
    ensures Gathered(m) == m[x].Plus(Gathered(m - {x}))
    decreases |m|
  {
    hide Volume.Plus;
    var k :| k in m && Gathered(m) == m[k].Plus(Gathered(m - {k}));
    if k != x {
      GatheredRemove(m - {k}, x);
      GatheredRemove(m - {x}, k);
      assert m - {k} - {x} == m - {x} - {k};
      PlusLaws(m[k], m[x], Gathered(m - {k} - {x}));
      PlusLaws(m[x], m[k], Gathered(m - {k} - {x}));
    }
  }

  /** A table's entries are those of `a` and those of `b`. */
  ghost predicate Splits<K>(m: map<K, Volume>, a: map<K, Volume>, b: map<K, Volume>) {
    m.Keys == a.Keys + b.Keys && a.Keys !! b.Keys && forall k :: k in m ==> m[k] == if k in a then a[k] else b[k]
  }

  lemma SplitsWithout<K>(m: map<K, Volume>, a: map<K, Volume>, b: map<K, Volume>, k: K)
    requires Splits(m, a, b) && k in a
    ensures Splits(m - {k}, a - {k}, b) && k in m && m[k] == a[k]
  {
  }

  lemma {:induction false} GatheredSplit<K>(m: map<K, Volume>, a: map<K, Volume>, b: map<K, Volume>)
    requires Splits(m, a, b)
    ensures Gathered(m) == Gathered(a).Plus(Gathered(b))
    decreases |a|
  {
    if a == map[] {
      assert m == b;
      PlusLaws(Gathered(b), NOTHING, NOTHING);
    } else {
      hide *;
      var k :| k in a;
      SplitsWithout(m, a, b, k);
      GatheredSplit(m - {k}, a - {k}, b);
      GatheredRemove(m, k);
      GatheredRemove(a, k);
      PlusLaws(a[k], Gathered(a - {k}), Gathered(b));
    }
  }

  lemma GatheredPut<K>(m: map<K, Volume>, x: K, v: Volume)
    ensures Gathered(m[x := v]) == v.Plus(Gathered(m - {x}))
  {
    GatheredRemove(m[x := v], x);
    assert m[x := v] - {x} == m - {x};
  }
}
