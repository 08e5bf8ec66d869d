/** A reader that polls the packet ring with a cursor while packets keep arriving, and the ring may be replaced
    (graph/packet_store.go, graph/graph.go Clear). */
module PacketPolls {
  import opened PacketRing

  /** Clear installs a new ring, which numbers its packets from 1 again; the reader keeps its cursor. */
  datatype Step = Add(p: Packet) | Poll(limit: int) | Clear

  /** `history` is what the present ring was given, `earlier` what the reader had received when it was installed.
      `missed` collects the identifiers the reader is never handed: those of matching packets that were evicted
      before a poll moved past them, and, in a new ring, those up to the cursor the reader came with. */
  datatype Reader = Reader(history: seq<Packet>, cursor: int, received: seq<PacketData>, missed: set<int>,
                           earlier: seq<PacketData>)

  /** The identifiers up to this one are evicted. */
  function Evicted(history: seq<Packet>, cap: nat): int { |history| - Kept(history, cap) }

  /** The packet with this identifier. */
  function WithId(history: seq<Packet>, id: int): PacketData
    requires 1 <= id <= |history|
  {
    Numbered(history, id - 1)
  }

  function Through(n: int): (ids: set<int>)
    ensures forall id :: id in ids <==> 1 <= id <= n
  {
    if n <= 0 then {} else Through(n - 1) + {n}
  }

  /** How far into the present ring the cursor reaches. */
  function Reached(r: Reader): int { if r.cursor < |r.history| then r.cursor else |r.history| }

  function Lost(history: seq<Packet>, cap: nat, m: Match, since: int): set<int> {
    set id | since < id <= Evicted(history, cap) && 1 <= id && m(WithId(history, id))
  }

  function Next(r: Reader, cap: nat, m: Match, s: Step): Reader {
    match s
    case Add(p) => r.(history := r.history + [p])
    case Poll(limit) =>
      var result := Polled(Recent(r.history, cap), m, r.cursor, Limit(limit));
      r.(cursor := Cursor(result, r.cursor), received := r.received + result,
         missed := if result == [] then r.missed else r.missed + Lost(r.history, cap, m, r.cursor))
    case Clear => Reader([], r.cursor, r.received, Through(r.cursor), r.received)
  }

  function After(cap: nat, m: Match, steps: seq<Step>): Reader {
    if steps == [] then Reader([], 0, [], {}, [])
      else Next(After(cap, m, steps[..|steps| - 1]), cap, m, steps[|steps| - 1])
  }

  /** The matching packets among the first `n`, in order, but for those missed. */
  function Seen(history: seq<Packet>, m: Match, missed: set<int>, n: nat): seq<PacketData>
    requires n <= |history|
  {
    if n == 0 then []
    else
      var past, p := Seen(history, m, missed, n - 1), Numbered(history, n - 1);
      if m(p) && p.id !in missed then past + [p] else past
  }

  lemma {:induction false} SeenGrows(history: seq<Packet>, p: Packet, m: Match, missed: set<int>, n: nat)
    requires n <= |history|
    ensures Seen(history + [p], m, missed, n) == Seen(history, m, missed, n)
  {
    if n > 0 {
      SeenGrows(history, p, m, missed, n - 1);
    }
  }

  /** Nothing new to see between two identifiers. */
  lemma {:induction false} SeenFlat(history: seq<Packet>, m: Match, missed: set<int>, a: nat, b: nat)
    requires a <= b <= |history| && forall id {:trigger WithId(history, id)} {:trigger id in missed} :: a < id <= b ==>
      !m(WithId(history, id)) || id in missed
    ensures Seen(history, m, missed, b) == Seen(history, m, missed, a)
    decreases b
  {
    if a < b {
      assert !m(WithId(history, b)) || b in missed;
      SeenFlat(history, m, missed, a, b - 1);
    }
  }

  lemma {:induction false} SeenIgnores(history: seq<Packet>, m: Match, a: set<int>, b: set<int>, n: nat)
    requires n <= |history| && forall id :: 1 <= id <= n ==> (id in a <==> id in b)
    ensures Seen(history, m, a, n) == Seen(history, m, b, n)
  {
    if n > 0 {
      SeenIgnores(history, m, a, b, n - 1);
    }
  }

  ghost predicate NoMatch(history: seq<Packet>, m: Match, a: int, b: int)
    requires b <= |history| && a >= 0
  {
    forall id :: a < id <= b ==> !m(WithId(history, id))
  }

  /** What a poll has found after the first `i` stored packets. */
  lemma {:induction false} PollProgress(r: Reader, cap: nat, m: Match, limit: nat, i: nat)
    requires 0 <= r.cursor <= |r.history| && (forall id :: id in r.missed ==> id <= r.cursor)
    requires i <= Kept(r.history, cap) && limit > 0
    ensures |Recent(r.history, cap)| == Kept(r.history, cap)
    ensures var result := Polled(Recent(r.history, cap)[..i], m, r.cursor, limit);
      var e := Evicted(r.history, cap);
      && |result| <= limit
      && r.cursor <= Cursor(result, r.cursor) <= |r.history|
      && (result != [] ==> e < Cursor(result, r.cursor) <= e + i)
      && (result != [] ==> Seen(r.history, m, r.missed + Lost(r.history, cap, m, r.cursor), Cursor(result, r.cursor)) ==
                           Seen(r.history, m, r.missed, r.cursor) + result)
      && (|result| < limit ==>
        NoMatch(r.history, m, if Cursor(result, r.cursor) > e then Cursor(result, r.cursor) else e, e + i))
  {
    hide Polled, Seen, Recent;
    RecentLength(r.history, cap);
    var stored, e := Recent(r.history, cap), Evicted(r.history, cap);
    if i == 0 {
      NothingPolled(m, r.cursor, limit);
    } else {
      PollProgress(r, cap, m, limit, i - 1);
      PolledMore(stored, i - 1, m, r.cursor, limit);
      var past, p := Polled(stored[..i - 1], m, r.cursor, limit), stored[i - 1];
      var missed := r.missed + Lost(r.history, cap, m, r.cursor);
      if |past| < limit && p.id > r.cursor && m(p) {
        SeenNext(r.history, m, missed, p.id);
        if past == [] {
          SeenFlat(r.history, m, missed, r.cursor, p.id - 1);
          SeenIgnores(r.history, m, r.missed, missed, r.cursor);
        } else {
          SeenFlat(r.history, m, missed, Cursor(past, r.cursor), p.id - 1);
          assert Seen(r.history, m, r.missed, r.cursor) + (past + [p])
            == Seen(r.history, m, r.missed, r.cursor) + past + [p];
        }
      }
    }
  }

  lemma SeenNext(history: seq<Packet>, m: Match, missed: set<int>, n: int)
    requires 1 <= n <= |history| && m(Numbered(history, n - 1)) && n !in missed
    ensures Seen(history, m, missed, n) == Seen(history, m, missed, n - 1) + [Numbered(history, n - 1)]
  {
  }

  ghost predicate Reading(r: Reader, m: Match) {
    && 0 <= r.cursor && (forall id :: id in r.missed ==> id <= r.cursor)
    && (r.cursor <= |r.history| || Through(r.cursor) <= r.missed)
    && r.received == r.earlier + Seen(r.history, m, r.missed, Reached(r))
  }

  /** However polls, arrivals and replacements interleave: from the present ring a reader has received, in order and
      each once, exactly the matching packets up to its cursor, except those it missed. */
  lemma {:induction false} ReadersSeeInOrder(cap: nat, m: Match, steps: seq<Step>)
    ensures Reading(After(cap, m, steps), m)
  {
    hide Polled, Seen, Recent;
    if steps == [] {
      NothingSeen([], m, {});
    } else {
      ReadersSeeInOrder(cap, m, steps[..|steps| - 1]);
      var r := After(cap, m, steps[..|steps| - 1]);
      match steps[|steps| - 1]
      case Add(p) => AddKeepsReading(r, m, p);
      case Poll(limit) => PollKeepsReading(r, cap, m, limit);
      case Clear => NothingSeen([], m, Through(r.cursor));
    }
  }

  lemma AddKeepsReading(r: Reader, m: Match, p: Packet)
    requires Reading(r, m)
    ensures Reading(r.(history := r.history + [p]), m)
  {
    var history := r.history + [p];
    SeenGrows(r.history, p, m, r.missed, Reached(r));
    if r.cursor > |r.history| {
      assert |history| in Through(r.cursor);
      SeenFlat(history, m, r.missed, |r.history|, |history|);
    }
  }

  lemma PollKeepsReading(r: Reader, cap: nat, m: Match, limit: int)
    requires Reading(r, m)
    ensures Reading(Next(r, cap, m, Poll(limit)), m)
  {
    hide Polled, Seen, Recent;
    var result := Polled(Recent(r.history, cap), m, r.cursor, Limit(limit));
    if r.cursor <= |r.history| {
      PollProgress(r, cap, m, Limit(limit), Kept(r.history, cap));
      assert Recent(r.history, cap)[..Kept(r.history, cap)] == Recent(r.history, cap);
      assert r.earlier + Seen(r.history, m, r.missed, r.cursor) + result
          == r.earlier + (Seen(r.history, m, r.missed, r.cursor) + result);
    } else {
      StaleCursorPollsNothing(r, cap, m, Limit(limit));
      assert r.received + [] == r.received;
    }
  }

  /** A cursor beyond the newest packet finds nothing. */
  lemma StaleCursorPollsNothing(r: Reader, cap: nat, m: Match, limit: nat)
    requires r.cursor > |r.history|
    ensures Polled(Recent(r.history, cap), m, r.cursor, limit) == []
  {
    RecentLength(r.history, cap);
    NothingPast(Recent(r.history, cap), m, r.cursor, limit);
  }

  lemma {:induction false} NothingPast(stored: seq<PacketData>, m: Match, since: int, limit: nat)
    requires forall i :: 0 <= i < |stored| ==> stored[i].id <= since
    ensures Polled(stored, m, since, limit) == []
  {
    if stored != [] {
      NothingPast(stored[..|stored| - 1], m, since, limit);
    }
  }

  lemma NothingSeen(history: seq<Packet>, m: Match, missed: set<int>)
    ensures Seen(history, m, missed, 0) == []
  {
  }

  /** A poll that comes back short has caught up: nothing stored beyond the cursor matches. */
  lemma ShortPollsCatchUp(cap: nat, m: Match, steps: seq<Step>, limit: int)
    ensures var r := After(cap, m, steps);
      var result := Polled(Recent(r.history, cap), m, r.cursor, Limit(limit));
      |result| < Limit(limit) ==> forall p :: p in Recent(r.history, cap) && p.id > Cursor(result, r.cursor) ==> !m(p)
  {
    hide Polled, Recent, Seen, After;
    ReadersSeeInOrder(cap, m, steps);
    var r := After(cap, m, steps);
    RecentLength(r.history, cap);
    if r.cursor > |r.history| {
      StaleCursorPollsNothing(r, cap, m, Limit(limit));
      return;
    }
    PollProgress(r, cap, m, Limit(limit), Kept(r.history, cap));
    assert Recent(r.history, cap)[..Kept(r.history, cap)] == Recent(r.history, cap);
    var result := Polled(Recent(r.history, cap), m, r.cursor, Limit(limit));
    if |result| < Limit(limit) {
      forall p | p in Recent(r.history, cap) && p.id > Cursor(result, r.cursor) ensures !m(p) {
        assert p == WithId(r.history, p.id);
      }
    }
  }

  /** Every poll came before anything unread was evicted. */
  ghost predicate KeepsUp(cap: nat, m: Match, steps: seq<Step>) {
    steps == [] || (KeepsUp(cap, m, steps[..|steps| - 1])
                    && (steps[|steps| - 1].Poll? ==>
                      Evicted(After(cap, m, steps[..|steps| - 1]).history, cap) <= After(cap, m,
                        steps[..|steps| - 1]).cursor))
  }

  /** The cursor a reader brought to the present ring: nothing up to it is ever handed out. */
  function Floor(cap: nat, m: Match, steps: seq<Step>): int {
    if steps == [] then 0
    else if steps[|steps| - 1].Clear? then After(cap, m, steps[..|steps| - 1]).cursor
    else Floor(cap, m, steps[..|steps| - 1])
  }

  /** A reader that keeps up misses only what a new ring numbers up to its old cursor, and so nothing before the
      first Clear. */
  lemma {:induction false} KeepingUpMissesNothing(cap: nat, m: Match, steps: seq<Step>)
    requires KeepsUp(cap, m, steps)
    ensures var r := After(cap, m, steps);
      && r.missed == Through(Floor(cap, m, steps)) && 0 <= Floor(cap, m, steps) <= r.cursor
      && r.received == r.earlier + Seen(r.history, m, r.missed, Reached(r))
    ensures (forall i :: 0 <= i < |steps| ==> !steps[i].Clear?) ==>
      var r := After(cap, m, steps);
      r.missed == {} && 0 <= r.cursor <= |r.history| && r.received == Seen(r.history, m, {}, r.cursor)
  {
    hide Polled, Recent, Seen;
    ReadersSeeInOrder(cap, m, steps);
    if steps != [] {
      var r, s := After(cap, m, steps[..|steps| - 1]), steps[|steps| - 1];
      ReadersSeeInOrder(cap, m, steps[..|steps| - 1]);
      KeepingUpMissesNothing(cap, m, steps[..|steps| - 1]);
      if s.Poll? { PollAdvances(r, cap, m, s.limit); }
      if forall i :: 0 <= i < |steps| ==> !steps[i].Clear? { NothingEarlier(cap, m, steps); }
    } else {
      NothingSeen([], m, {});
    }
  }

  lemma PollAdvances(r: Reader, cap: nat, m: Match, limit: int)
    requires Reading(r, m)
    ensures var next := Next(r, cap, m, Poll(limit));
      r.cursor <= next.cursor && (r.cursor <= |r.history| ==> next.cursor <= |r.history|)
  {
    hide Polled, Recent, Seen;
    if r.cursor <= |r.history| {
      PollProgress(r, cap, m, Limit(limit), Kept(r.history, cap));
      assert Recent(r.history, cap)[..Kept(r.history, cap)] == Recent(r.history, cap);
    } else {
      StaleCursorPollsNothing(r, cap, m, Limit(limit));
    }
  }

  lemma {:induction false} NothingEarlier(cap: nat, m: Match, steps: seq<Step>)
    requires forall i :: 0 <= i < |steps| ==> !steps[i].Clear?
    ensures Floor(cap, m, steps) == 0 && After(cap, m, steps).earlier == []
      && After(cap, m, steps).cursor <= |After(cap, m, steps).history|
  {
    hide Polled, Recent, Seen;
    if steps != [] {
      var r, s := After(cap, m, steps[..|steps| - 1]), steps[|steps| - 1];
      NothingEarlier(cap, m, steps[..|steps| - 1]);
      ReadersSeeInOrder(cap, m, steps[..|steps| - 1]);
      if s.Poll? { PollAdvances(r, cap, m, s.limit); }
    }
  }

  /** When Clear costs a reader that keeps up: exactly if one of the packets that the new ring numbers up to the old
      cursor matches. */
  lemma ClearSkipsExactly(cap: nat, m: Match, steps: seq<Step>)
    requires KeepsUp(cap, m, steps)
    ensures 0 <= After(cap, m, steps).cursor
    ensures var r := After(cap, m, steps);
      r.received == r.earlier + Seen(r.history, m, {}, Reached(r)) <==>
      forall id :: 1 <= id <= Floor(cap, m, steps) && id <= |r.history| ==> !m(WithId(r.history, id))
  {
    hide After, Seen, Floor;
    KeepingUpMissesNothing(cap, m, steps);
    var r := After(cap, m, steps);
    SeenUnless(r.history, m, r.missed, Reached(r));
    SameTail(r.earlier, Seen(r.history, m, r.missed, Reached(r)), Seen(r.history, m, {}, Reached(r)));
  }

  lemma SameTail<T>(a: seq<T>, b: seq<T>, c: seq<T>)
    ensures a + b == a + c <==> b == c
  {
    if a + b == a + c {
      assert b == (a + b)[|a|..] && c == (a + c)[|a|..];
    }
  }

  lemma {:induction false} SeenUnless(history: seq<Packet>, m: Match, missed: set<int>, n: nat)
    requires n <= |history|
    ensures |Seen(history, m, missed, n)| <= |Seen(history, m, {}, n)|
    ensures Seen(history, m, missed, n) == Seen(history, m, {}, n) <==>
      forall id {:trigger WithId(history, id)} :: 1 <= id <= n && id in missed ==> !m(WithId(history, id))
  {
    if n > 0 {
      SeenUnless(history, m, missed, n - 1);
      var p := WithId(history, n);
      if m(p) && n !in missed {
        SameFront(Seen(history, m, missed, n - 1), Seen(history, m, {}, n - 1), p);
      }
    }
  }

  lemma SameFront<T>(a: seq<T>, b: seq<T>, x: T)
    ensures a + [x] == b + [x] <==> a == b
  {
    if a + [x] == b + [x] {
      assert a == (a + [x])[..|a|] && b == (b + [x])[..|b|];
    }
  }
}
