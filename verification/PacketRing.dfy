/** The ring of recent packets and the cursors that poll it (graph/packet_store.go). */
module PacketRing {
  datatype Packet = Packet(src: string, dst: string, length: int)

  datatype PacketData = PacketData(id: int, packet: Packet)

  const DEFAULT_LIMIT := 200

  type Match = PacketData -> bool

  /** The slot of the i-th oldest packet. */
  function Slot(head: int, i: int, cap: int): (r: int)
    requires cap > 0
    ensures 0 <= r < cap
  {
    (head + i) % cap
  }

  lemma SlotIs(head: int, i: int, cap: int)
    requires 0 <= head < cap && 0 <= i <= cap
    ensures Slot(head, i, cap) == if head + i < cap then head + i else head + i - cap
  {
    if head + i < cap {
      ModOf(head + i, 0, cap, head + i);
    } else {
      ModOf(head + i, 1, cap, head + i - cap);
    }
  }

  lemma ModOf(n: int, q: int, cap: int, r: int)
    requires cap > 0 && 0 <= r < cap && n == q * cap + r
    ensures n % cap == r
  {
    Multiple(cap, q - n / cap);
    assert n == cap * (n / cap) + n % cap;
    assert n % cap - r == cap * (q - n / cap);
  }

  lemma Multiple(cap: int, d: int)
    requires cap > 0
    ensures d >= 1 ==> cap * d >= cap
    ensures d <= -1 ==> cap * d <= -cap
  {
  }

  /** Packet `i` of the history, with its identifier: they count from 1. */
  function Numbered(history: seq<Packet>, i: int): PacketData
    requires 0 <= i < |history|
  {
    PacketData(i + 1, history[i])
  }

  lemma NumberedStays(history: seq<Packet>, p: Packet)
    ensures Numbered(history + [p], |history|) == PacketData(|history| + 1, p)
    ensures forall i :: 0 <= i < |history| ==> Numbered(history + [p], i) == Numbered(history, i)
  {
  }

  function Kept(history: seq<Packet>, cap: int): int { if |history| < cap then |history| else cap }

  /** The packets a ring of this capacity still holds, oldest first. */
  function Recent(history: seq<Packet>, cap: nat): seq<PacketData> {
    seq(Kept(history, cap), i requires 0 <= i < Kept(history, cap) => Numbered(history,
      |history| - Kept(history, cap) + i))
  }

  /** The first `limit` of the stored packets past the cursor that match. */
  function Polled(stored: seq<PacketData>, match_: Match, since: int, limit: nat): seq<PacketData> {
    if stored == [] then []
    else
      var past, p := Polled(stored[..|stored| - 1], match_, since, limit), stored[|stored| - 1];
      if |past| < limit && p.id > since && match_(p) then past + [p] else past
  }

  function Cursor(result: seq<PacketData>, since: int): int { if result == [] then since else result[|result| - 1].id }

  function Limit(limit: int): (r: nat)
    ensures r > 0
  {
    if limit <= 0 then DEFAULT_LIMIT else limit
  }

  /** An answer to a poll: packets still held, past the cursor and wanted, in order and under their own numbers; all of
      them, or as many as the limit (200 if none is given) lets through; and the cursor to go on from. */
  ghost predicate Answers(history: seq<Packet>, cap: nat, since: int, limit: int, want: Packet -> bool,
                          result: seq<PacketData>, cursor: int) {
    && |result| <= (if limit <= 0 then 200 else limit)
    && (forall i, j :: 0 <= i < j < |result| ==> result[i].id < result[j].id)
    && (forall p :: p in result ==>
          && p.id > since && 1 <= p.id <= |history| && p.id > |history| - cap
          && p.packet == history[p.id - 1] && want(p.packet))
    && (forall k :: 0 <= k < |history| && since <= k && |history| - cap <= k && want(history[k]) ==>
          || PacketData(k + 1, history[k]) in result
          || (|result| == (if limit <= 0 then 200 else limit) && cursor < k + 1))
    && cursor == if result == [] then since else result[|result| - 1].id
  }

  ghost predicate AscendingIds(s: seq<PacketData>) { forall i, j :: 0 <= i < j < |s| ==> s[i].id < s[j].id }

  ghost predicate Exactly(stored: seq<PacketData>, match_: Match, since: int, limit: nat, r: seq<PacketData>) {
    && |r| <= limit && AscendingIds(r)
    && (forall p :: p in r ==> p in stored && p.id > since && match_(p))
    && forall p :: p in stored && p.id > since && match_(p) ==> p in r || (|r| == limit > 0 && r[|r| - 1].id < p.id)
  }

  lemma {:induction false} PolledExactly(stored: seq<PacketData>, match_: Match, since: int, limit: nat)
    requires limit > 0 && AscendingIds(stored)
    ensures Exactly(stored, match_, since, limit, Polled(stored, match_, since, limit))
  {
    hide Exactly, AscendingIds;
    if stored == [] {
      NothingExactly(match_, since, limit);
    } else {
      var past, last := stored[..|stored| - 1], stored[|stored| - 1];
      PastAscends(stored);
      PolledExactly(past, match_, since, limit);
      OneMoreExactly(past, last, match_, since, limit, Polled(past, match_, since, limit));
      assert stored == past + [last];
    }
  }

  lemma NothingExactly(match_: Match, since: int, limit: nat)
    ensures Exactly([], match_, since, limit, [])
  {
  }

  lemma PastAscends(stored: seq<PacketData>)
    requires stored != [] && AscendingIds(stored)
    ensures AscendingIds(stored[..|stored| - 1])
    ensures forall p :: p in stored[..|stored| - 1] ==> p.id < stored[|stored| - 1].id
  {
  }

  lemma OneMoreExactly(past: seq<PacketData>, last: PacketData, match_: Match, since: int, limit: nat,
                       r: seq<PacketData>)
    requires Exactly(past, match_, since, limit, r) && limit > 0 && forall p :: p in past ==> p.id < last.id
    ensures Exactly(past + [last], match_, since, limit,
      if |r| < limit && last.id > since && match_(last) then r + [last] else r)
  {
    if |r| == limit {
      assert r[|r| - 1] in r;
    }
  }

  lemma PolledAnswers(history: seq<Packet>, cap: nat, match_: Match, want: Packet -> bool, since: int, limit: int)
    requires forall p :: match_(p) == want(p.packet)
    ensures var r := Polled(Recent(history, cap), match_, since, Limit(limit));
      Answers(history, cap, since, limit, want, r, Cursor(r, since))
  {
    var stored := Recent(history, cap);
    RecentAscends(history, cap);
    hide Recent, Kept;
    assert AscendingIds(stored);
    PolledExactly(stored, match_, since, Limit(limit));
    hide Polled;
    var r := Polled(stored, match_, since, Limit(limit));
    forall p | p in r ensures 1 <= p.id <= |history| && p.id > |history| - cap && p.packet == history[p.id - 1] {
      EntryIsHeld(history, cap, p);
    }
    forall k | 0 <= k < |history| && since <= k && |history| - cap <= k && want(history[k])
      ensures PacketData(k + 1, history[k]) in r || (|r| == Limit(limit) && r[|r| - 1].id < k + 1)
    {
      PacketIsHeld(history, cap, k);
      assert match_(PacketData(k + 1, history[k]));
    }
  }

  lemma RecentAscends(history: seq<Packet>, cap: nat)
    ensures forall i, j :: 0 <= i < j < |Recent(history, cap)| ==>
      Recent(history, cap)[i].id < Recent(history, cap)[j].id
  {
    RecentLength(history, cap);
  }

  lemma EntryIsHeld(history: seq<Packet>, cap: nat, p: PacketData)
    requires p in Recent(history, cap)
    ensures 1 <= p.id <= |history| && p.id > |history| - cap && p.packet == history[p.id - 1]
  {
    RecentLength(history, cap);
  }

  lemma PacketIsHeld(history: seq<Packet>, cap: nat, k: int)
    requires 0 <= k < |history| && |history| - cap <= k
    ensures PacketData(k + 1, history[k]) in Recent(history, cap)
  {
    RecentLength(history, cap);
    assert Recent(history, cap)[k - (|history| - Kept(history, cap))] == PacketData(k + 1, history[k]);
  }

  class PacketStore {
    const packets: array<PacketData>
    const maxPackets: int
    var head: int
    var size: int
    var nextId: int
    ghost var history: seq<Packet>

    ghost predicate Valid()
      reads this, packets
    {
      && packets.Length == maxPackets > 0 && 0 <= head < maxPackets && nextId == |history| + 1
      && size == Kept(history, maxPackets) && (size < maxPackets ==> head == 0)
      && forall i {:trigger Slot(head, i, maxPackets)} :: 0 <= i < size ==>
           packets[Slot(head, i, maxPackets)] == Numbered(history, |history| - size + i)
    }

    constructor (maxPackets: int)
      requires maxPackets > 0
      ensures Valid() && this.maxPackets == maxPackets && history == [] && fresh(packets)
    {
      this.maxPackets := maxPackets;
      packets := new PacketData[maxPackets];
      head, size, nextId, history := 0, 0, 1, [];
    }

    /** Adds a packet; a full ring overwrites its oldest one. */
    method AddPacket(p: Packet)
      requires Valid()
      modifies this, packets
      ensures Valid() && history == old(history) + [p]
    {
      hide Numbered;
      NumberedStays(history, p);
      var data := PacketData(nextId, p);
      nextId := nextId + 1;
      history := history + [p];
      if size < maxPackets {
        Append(data);
      } else {
        Overwrite(data);
      }
    }

    method Append(data: PacketData)
      requires packets.Length == maxPackets > 0 && 0 <= head < maxPackets && 0 <= size < maxPackets
      modifies packets, this`size
      ensures size == old(size) + 1 && packets[Slot(head, size - 1, maxPackets)] == data
      ensures forall i {:trigger Slot(head, i, maxPackets)} :: 0 <= i < old(size) ==>
        packets[Slot(head, i, maxPackets)] == old(packets[Slot(head, i, maxPackets)])
    {
      hide Slot;
      var insertPos := Slot(head, size, maxPackets);
      SlotIs(head, size, maxPackets);
      forall i | 0 <= i < size ensures Slot(head, i, maxPackets) != insertPos { SlotIs(head, i, maxPackets); }
      packets[insertPos] := data;
      size := size + 1;
    }

    method Overwrite(data: PacketData)
      requires packets.Length == maxPackets > 0 && 0 <= head < maxPackets
      modifies packets, this`head
      ensures 0 <= head < maxPackets && packets[Slot(head, maxPackets - 1, maxPackets)] == data
      ensures forall i {:trigger Slot(head, i, maxPackets)} :: 0 <= i < maxPackets - 1 ==>
        packets[Slot(head, i, maxPackets)] == old(packets[Slot(head, i + 1, maxPackets)])
    {
      hide Slot;
      ghost var before := head;
      packets[head] := data;
      head := Slot(head, 1, maxPackets);
      SlotIs(before, 1, maxPackets);
      forall i | 0 <= i < maxPackets
        ensures Slot(head, i, maxPackets) == (if i + 1 < maxPackets then Slot(before, i + 1, maxPackets) else before)
        ensures i + 1 < maxPackets ==> Slot(before, i + 1, maxPackets) != before
      {
        SlotIs(head, i, maxPackets);
        SlotIs(before, i + 1, maxPackets);
      }
    }

    /** All stored packets, oldest first. */
    method GetPackets() returns (result: seq<PacketData>)
      requires Valid()
      ensures result == Recent(history, maxPackets)
    {
      result := [];
      for i := 0 to size
        invariant result == Recent(history, maxPackets)[..i]
      {
        result := result + [packets[Slot(head, i, maxPackets)]];
      }
    }

    /** The common loop of the three queries. */
    method Query(match_: Match, since: int, limit: int) returns (result: seq<PacketData>, cursor: int)
      requires Valid()
      ensures result == Polled(Recent(history, maxPackets), match_, since, Limit(limit))
        && cursor == Cursor(result, since)
    {
      hide Polled, Recent;
      ghost var stored := Recent(history, maxPackets);
      var max := if limit <= 0 then DEFAULT_LIMIT else limit;
      result, cursor := [], since;
      var i := 0;
      NothingPolled(match_, since, max);
      RecentLength(history, maxPackets);
      while i < size
        invariant 0 <= i <= size && |result| < max
        invariant result == Polled(stored[..i], match_, since, max) && cursor == Cursor(result, since)
      {
        var p := Fetch(i);
        PolledMore(stored, i, match_, since, max);
        CursorBehind(history, maxPackets, i, match_, since, max);
        i := i + 1;
        if p.id <= since || !match_(p) {
          continue;
        }
        result := result + [p];
        if p.id > cursor {
          cursor := p.id;
        }
        if |result| >= max {
          PolledStops(stored, i, match_, since, max);
          return;
        }
      }
      assert stored[..|stored|] == stored;
    }

    method Fetch(i: int) returns (p: PacketData)
      requires Valid() && 0 <= i < size
      ensures |Recent(history, maxPackets)| == size && p == Recent(history, maxPackets)[i]
    {
      SlotIs(head, i, maxPackets);
      p := packets[Slot(head, i, maxPackets)];
    }

    method GetPacketsSince(since: int, limit: int) returns (result: seq<PacketData>, cursor: int)
      requires Valid()
      ensures result == Polled(Recent(history, maxPackets), _ => true, since, Limit(limit))
        && cursor == Cursor(result, since)
      ensures Answers(history, maxPackets, since, limit, (p: Packet) => true, result, cursor)
    {
      result, cursor := Query(_ => true, since, limit);
      PolledAnswers(history, maxPackets, _ => true, (p: Packet) => true, since, limit);
    }

    method GetPacketsForIPs(ips: set<string>, since: int, limit: int) returns (result: seq<PacketData>, cursor: int)
      requires Valid()
      ensures result == Polled(Recent(history, maxPackets), ForIPs(ips), since, Limit(limit))
        && cursor == Cursor(result, since)
      ensures Answers(history, maxPackets, since, limit, (p: Packet) => p.src in ips || p.dst in ips, result, cursor)
    {
      result, cursor := Query(ForIPs(ips), since, limit);
      PolledAnswers(history, maxPackets, ForIPs(ips), (p: Packet) => p.src in ips || p.dst in ips, since, limit);
    }

    method GetPacketsBetween(a: set<string>, b: set<string>, since: int, limit: int)
      returns (result: seq<PacketData>, cursor: int)
      requires Valid()
      ensures result == Polled(Recent(history, maxPackets), BetweenIPs(a, b), since, Limit(limit))
        && cursor == Cursor(result, since)
      ensures Answers(history, maxPackets, since, limit,
        (p: Packet) => (p.src in a && p.dst in b) || (p.src in b && p.dst in a), result, cursor)
    {
      result, cursor := Query(BetweenIPs(a, b), since, limit);
      PolledAnswers(history, maxPackets, BetweenIPs(a, b),
        (p: Packet) => (p.src in a && p.dst in b) || (p.src in b && p.dst in a), since, limit);
    }
  }

  function ForIPs(ips: set<string>): Match { (p: PacketData) => p.packet.src in ips || p.packet.dst in ips }

  function BetweenIPs(a: set<string>, b: set<string>): Match {
    (p: PacketData) => (p.packet.src in a && p.packet.dst in b) || (p.packet.src in b && p.packet.dst in a)
  }

  lemma NothingPolled(match_: Match, since: int, limit: nat)
    ensures Polled([], match_, since, limit) == []
  {
  }

  lemma RecentLength(history: seq<Packet>, cap: nat)
    ensures |Recent(history, cap)| == Kept(history, cap)
    ensures forall i :: 0 <= i < Kept(history, cap) ==>
      Recent(history, cap)[i] == Numbered(history, |history| - Kept(history, cap) + i)
  {
  }

  lemma PolledMore(stored: seq<PacketData>, i: nat, match_: Match, since: int, limit: nat)
    requires i < |stored|
    ensures Polled(stored[..i + 1], match_, since, limit) ==
            Polled(stored[..i], match_, since, limit)
              + if |Polled(stored[..i], match_, since, limit)| < limit && stored[i].id > since
                && match_(stored[i]) then [stored[i]] else []
  {
    assert stored[..i + 1][..i] == stored[..i];
  }

  /** The cursor never runs ahead of the packets read. */
  lemma CursorBehind(history: seq<Packet>, cap: nat, i: nat, match_: Match, since: int, limit: nat)
    requires i < Kept(history, cap)
    ensures var stored := Recent(history, cap);
      |stored| == Kept(history, cap)
        && (stored[i].id > since ==> Cursor(Polled(stored[..i], match_, since, limit), since) < stored[i].id)
  {
    hide Polled;
    RecentLength(history, cap);
    var r := Polled(Recent(history, cap)[..i], match_, since, limit);
    PolledIsPast(Recent(history, cap)[..i], match_, since, limit);
    if r != [] {
      assert r[|r| - 1] in Recent(history, cap)[..i];
    }
  }

  lemma {:induction false} PolledStops(stored: seq<PacketData>, n: nat, match_: Match, since: int, limit: nat)
    requires n <= |stored| && |Polled(stored[..n], match_, since, limit)| >= limit
    ensures Polled(stored, match_, since, limit) == Polled(stored[..n], match_, since, limit)
    decreases |stored|
  {
    if n == |stored| {
      assert stored[..n] == stored;
    } else {
      assert stored[..|stored| - 1][..n] == stored[..n];
      PolledStops(stored[..|stored| - 1], n, match_, since, limit);
    }
  }

  lemma {:induction false} PolledIsPast(stored: seq<PacketData>, match_: Match, since: int, limit: nat)
    ensures forall p :: p in Polled(stored, match_, since, limit) ==> p in stored && p.id > since && match_(p)
  {
    if stored != [] {
      PolledIsPast(stored[..|stored| - 1], match_, since, limit);
    }
  }
}
