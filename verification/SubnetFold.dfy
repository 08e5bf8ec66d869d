/** Folding hosts into subnet supernodes (graph/view.go BuildView's collapseLevel). */
module SubnetFold {
  import opened GraphState
  import opened Sorting

  const MIN_HOSTS_TO_COLLAPSE := 3

  /** A node of the view: `subnet` is its /24 as "a.b.c", or empty if it has no IPv4 address. */
  datatype Node = Node(id: string, subnet: string, packets: int, bytes: int, isGroup: bool)

  /** What the user has opened: fully, or up to a budget of individual nodes. */
  datatype Opened = Opened(expanded: set<string>, full: set<string>, budget: nat)
  {
    predicate IsFull(cidr: string) { cidr in full }

    predicate IsExpanded(cidr: string) { cidr in expanded || cidr in full }
  }

  /** What a node stands for: its own counters, its visible traffic, and how many hosts. */
  datatype Load = Load(packets: int, bytes: int, seen: int, hosts: int)
  {
    function Plus(that: Load): Load {
      Load(packets + that.packets, bytes + that.bytes, seen + that.seen, hosts + that.hosts)
    }
  }

  const NO_LOAD := Load(0, 0, 0, 0)

  /** The bookkeeping of aggregation: who went where, how many hosts each supernode stands for, and the visible
      traffic per node. */
  datatype Books = Books(hostToSuper: map<string, string>, superHosts: map<string, int>, visible: map<string, int>,
    tails: set<string>)

  function VisibleAt(visible: map<string, int>, id: string): int { if id in visible then visible[id] else 0 }

  function HostCount(superHosts: map<string, int>, id: string): int {
    if id in superHosts && superHosts[id] > 0 then superHosts[id] else 1
  }

  function LoadOf(b: Books, n: Node): Load {
    Load(n.packets, n.bytes, VisibleAt(b.visible, n.id), HostCount(b.superHosts, n.id))
  }

  function Sum(b: Books, nodes: seq<Node>): Load {
    if nodes == [] then NO_LOAD else Sum(b, nodes[..|nodes| - 1]).Plus(LoadOf(b, nodes[|nodes| - 1]))
  }

  function Stay(kept: seq<Node>, gone: set<int>, n: nat): seq<Node>
    requires n <= |kept|
  {
    if n == 0 then []
    else if n - 1 in gone then Stay(kept, gone, n - 1) else Stay(kept, gone, n - 1) + [kept[n - 1]]
  }

  function IdsOf(nodes: seq<Node>): set<string> { set i | 0 <= i < |nodes| :: nodes[i].id }

  ghost predicate DistinctIds(nodes: seq<Node>) { forall i, j :: 0 <= i < j < |nodes| ==> nodes[i].id != nodes[j].id }

  predicate HasSlash(s: string) { exists i :: 0 <= i < |s| && s[i] == '/' }

  predicate EndsPlus(s: string) { s != "" && s[|s| - 1] == '+' }

  function TailId(cidr: string): string { cidr + "+" }

  function Effective(filtering: bool, visible: map<string, int>, n: Node): int {
    if filtering then VisibleAt(visible, n.id) else n.packets
  }

  function Indices(s: seq<int>): set<int> { set i | i in s }

  /** The indices of a group: the nodes, other than group nodes, with this key. */
  function Group(kept: seq<Node>, keyOf: Node -> string, overrides: set<string>, cidr: string): set<int> {
    set i | 0 <= i < |kept| && !IsGroup(overrides, kept[i]) && keyOf(kept[i]) == cidr
  }

  predicate IsGroup(overrides: set<string>, n: Node) { n.isGroup || n.id in overrides }

  /** The keys of a level name supernodes that do not exist yet. */
  ghost predicate Fresh(b: Books, kept: seq<Node>, keyOf: Node -> string) {
    forall i :: 0 <= i < |kept| && keyOf(kept[i]) != "" ==> FreshKey(b, kept, keyOf(kept[i]))
  }

  ghost predicate FreshKey(b: Books, kept: seq<Node>, cidr: string) {
    !EndsPlus(cidr) && HasSlash(cidr) && NewId(b, kept, cidr) && NewId(b, kept, TailId(cidr))
  }

  ghost predicate NewId(b: Books, kept: seq<Node>, id: string) {
    id !in b.superHosts && id !in b.visible && id !in b.hostToSuper && id !in IdsOf(kept)
  }

  // ---- sums ----

  lemma LoadLaws(a: Load, b: Load, c: Load)
    ensures a.Plus(b) == b.Plus(a) && a.Plus(NO_LOAD) == a && a.Plus(b).Plus(c) == a.Plus(b.Plus(c))
      && a.Plus(b).Plus(c) == a.Plus(c).Plus(b)
  {
  }

  /** What nodes stand for: each one's packets and bytes, its visible traffic if there is any, and the hosts it stands
      for, one if it is no supernode. */
  lemma OneMoreNode(b: Books, nodes: seq<Node>, n: Node)
    ensures var before, after := Sum(b, nodes), Sum(b, nodes + [n]);
      && after.packets == before.packets + n.packets && after.bytes == before.bytes + n.bytes
      && after.seen == before.seen + (if n.id in b.visible then b.visible[n.id] else 0)
      && after.hosts == before.hosts
        + (if n.id in b.superHosts && b.superHosts[n.id] > 0 then b.superHosts[n.id] else 1)
    ensures Sum(b, []) == Load(0, 0, 0, 0)
  {
    assert (nodes + [n])[..|nodes|] == nodes;
  }

  lemma {:induction false} SumAppend(b: Books, a: seq<Node>, c: seq<Node>)
    ensures Sum(b, a + c) == Sum(b, a).Plus(Sum(b, c))
  {
    hide Load.Plus, LoadOf;
    if c == [] {
      assert a + c == a;
      LoadLaws(Sum(b, a), NO_LOAD, NO_LOAD);
    } else {
      assert (a + c)[..|a + c| - 1] == a + c[..|c| - 1];
      SumAppend(b, a, c[..|c| - 1]);
      LoadLaws(Sum(b, a), Sum(b, c[..|c| - 1]), LoadOf(b, c[|c| - 1]));
    }
  }

  /** Sums only look at their own nodes. */
  lemma {:induction false} SumIgnores(b: Books, d: Books, nodes: seq<Node>)
    requires forall i :: 0 <= i < |nodes| ==> LoadOf(b, nodes[i]) == LoadOf(d, nodes[i])
    ensures Sum(b, nodes) == Sum(d, nodes)
  {
    hide LoadOf, Load.Plus;
    if nodes != [] {
      SumIgnores(b, d, nodes[..|nodes| - 1]);
    }
  }

  lemma {:induction false} StayWithout(b: Books, kept: seq<Node>, gone: set<int>, i: int, n: nat)
    requires n <= |kept| && 0 <= i < |kept| && i !in gone
    ensures Sum(b, Stay(kept, gone, n))
      == Sum(b, Stay(kept, gone + {i}, n)).Plus(if i < n then LoadOf(b, kept[i]) else NO_LOAD)
  {
    hide LoadOf, Load.Plus, Sum;
    if n == 0 {
      NoSum(b);
    } else {
      StayWithout(b, kept, gone, i, n - 1);
      var x := LoadOf(b, kept[n - 1]);
      LoadLaws(Sum(b, Stay(kept, gone + {i}, n - 1)), if i < n - 1 then LoadOf(b, kept[i]) else NO_LOAD, x);
      LoadLaws(Sum(b, Stay(kept, gone + {i}, n - 1)), NO_LOAD, NO_LOAD);
      if n - 1 !in gone {
        SumAppend(b, Stay(kept, gone, n - 1), [kept[n - 1]]);
        SumAppend(b, Stay(kept, gone + {i}, n - 1), [kept[n - 1]]);
        OneSum(b, kept[n - 1]);
      }
    }
  }

  lemma NoSum(b: Books)
    ensures Sum(b, []) == NO_LOAD && NO_LOAD.Plus(NO_LOAD) == NO_LOAD
  {
  }

  lemma OneSum(b: Books, n: Node)
    ensures Sum(b, [n]) == LoadOf(b, n)
  {
  }

  lemma {:induction false} StayAll(kept: seq<Node>, n: nat)
    requires n <= |kept|
    ensures Stay(kept, {}, n) == kept[..n]
  {
    if n > 0 { StayAll(kept, n - 1); }
  }

  lemma {:induction false} StayIs(kept: seq<Node>, gone: set<int>, n: nat)
    requires n <= |kept|
    ensures forall x :: x in Stay(kept, gone, n) <==> exists i :: 0 <= i < n && i !in gone && kept[i] == x
    ensures DistinctIds(kept) ==> DistinctIds(Stay(kept, gone, n))
  {
    if n > 0 {
      StayIs(kept, gone, n - 1);
      var past := Stay(kept, gone, n - 1);
      forall x ensures x in Stay(kept, gone, n) <==> exists i :: 0 <= i < n && i !in gone && kept[i] == x {
        if n - 1 !in gone && x == kept[n - 1] { assert kept[n - 1] == x; }
      }
      if DistinctIds(kept) && n - 1 !in gone {
        forall k | 0 <= k < |past| ensures past[k].id != kept[n - 1].id {
          assert past[k] in past;
        }
      }
    }
  }

  // ---- folding one group ----

  /** A level in progress: the books, the indices folded away and the supernodes made. */
  datatype Progress = Progress(books: Books, gone: set<int>, supers: seq<Node>)

  /** Nothing is lost: the supernodes made and the nodes that stay stand for all there was. */
  ghost predicate LoadsBalance(b0: Books, kept: seq<Node>, p: Progress) {
    Sum(p.books, p.supers).Plus(Sum(b0, Stay(kept, p.gone, |kept|))) == Sum(b0, kept)
  }

  ghost predicate SupersOk(b0: Books, kept: seq<Node>, p: Progress) {
    && DistinctIds(p.supers)
    && forall k :: 0 <= k < |p.supers| ==> SuperOk(b0, kept, p.books, p.supers[k].id)
  }

  ghost predicate SuperOk(b0: Books, kept: seq<Node>, b: Books, id: string) {
    HasSlash(id) && NewId(b0, kept, id) && id in b.superHosts && b.superHosts[id] > 0
  }

  /** Only the entries of the new supernodes have changed. */
  ghost predicate Untouched(b0: Books, b: Books, supers: set<string>) {
    && (forall id {:trigger id in b.superHosts} {:trigger id in b0.superHosts} :: id !in supers ==>
          (id in b.superHosts <==> id in b0.superHosts)
            && (id in b.superHosts ==> b.superHosts[id] == b0.superHosts[id]))
    && (forall id {:trigger id in b.visible} {:trigger id in b0.visible} :: id !in supers ==>
          (id in b.visible <==> id in b0.visible) && (id in b.visible ==> b.visible[id] == b0.visible[id]))
  }

  /** Who went where: what was known before, and each folded node to one of the supernodes made. */
  ghost predicate MovedOut(b0: Books, kept: seq<Node>, p: Progress) {
    && (forall i :: i in p.gone ==>
      0 <= i < |kept| && kept[i].id in p.books.hostToSuper && p.books.hostToSuper[kept[i].id] in IdsOf(p.supers))
    && (forall id {:trigger id in p.books.hostToSuper} :: id in p.books.hostToSuper ==>
      id in b0.hostToSuper || exists i :: i in p.gone && kept[i].id == id)
    && (forall id {:trigger id in b0.hostToSuper} :: id in b0.hostToSuper ==>
      id in p.books.hostToSuper && p.books.hostToSuper[id] == b0.hostToSuper[id])
  }

  /** Nodes still shown have not gone anywhere. */
  ghost predicate AllShown(b: Books, kept: seq<Node>) {
    DistinctIds(kept) && forall i :: 0 <= i < |kept| ==> kept[i].id !in b.hostToSuper
  }

  ghost predicate InProgress(b0: Books, kept: seq<Node>, p: Progress) {
    && LoadsBalance(b0, kept, p) && SupersOk(b0, kept, p) && Untouched(b0, p.books, IdsOf(p.supers))
      && MovedOut(b0, kept, p)
  }

  lemma StartsBalanced(b0: Books, kept: seq<Node>)
    ensures InProgress(b0, kept, Progress(b0, {}, []))
  {
    hide Sum, Stay, Load.Plus, LoadOf;
    StayAll(kept, |kept|);
    assert kept[..|kept|] == kept;
    NoSum(b0);
    LoadLaws(Sum(b0, kept), NO_LOAD, NO_LOAD);
  }

  /** A supernode being filled from the members of its group. */
  datatype Filling = Filling(super: Node, hosts: int, books: Books, gone: set<int>)

  function FillLoad(f: Filling): Load {
    Load(f.super.packets, f.super.bytes, VisibleAt(f.books.visible, f.super.id), f.hosts)
  }

  ghost predicate FillOk(b0: Books, kept: seq<Node>, p: Progress, f: Filling) {
    && Sum(p.books, p.supers).Plus(FillLoad(f)).Plus(Sum(b0, Stay(kept, f.gone, |kept|))) == Sum(b0, kept)
    && f.books.superHosts == p.books.superHosts && f.books.tails == p.books.tails
    && (forall id :: id != f.super.id ==>
      (id in f.books.visible <==> id in p.books.visible)
        && (id in f.books.visible ==> f.books.visible[id] == p.books.visible[id]))
  }

  /** One member joins the supernode. */
  method FillOne(ghost b0: Books, kept: seq<Node>, ghost p: Progress, f: Filling, i: int) returns (g: Filling)
    requires InProgress(b0, kept, p) && FillOk(b0, kept, p, f) && 0 <= i < |kept| && i !in f.gone
    requires NewId(b0, kept, f.super.id) && f.super.id !in IdsOf(p.supers)
    ensures FillOk(b0, kept, p, g) && g.gone == f.gone + {i} && g.super.id == f.super.id
    ensures g.hosts == f.hosts + HostCount(b0.superHosts, kept[i].id)
    ensures g.books.hostToSuper == f.books.hostToSuper[kept[i].id := f.super.id]
  {
    hide Sum, Stay, MovedOut, LoadsBalance;
    var n := kept[i];
    var visible :=
      f.books.visible[f.super.id := VisibleAt(f.books.visible, f.super.id) + VisibleAt(f.books.visible, n.id)];
    g := Filling(f.super.(packets := f.super.packets + n.packets, bytes := f.super.bytes + n.bytes),
                 f.hosts + HostCount(f.books.superHosts, n.id),
                 f.books.(hostToSuper := f.books.hostToSuper[n.id := f.super.id], visible := visible),
                 f.gone + {i});
    MemberLoad(b0, kept, p, f, i);
    StayWithout(b0, kept, f.gone, i, |kept|);
    Regroup(Sum(p.books, p.supers), FillLoad(f), LoadOf(b0, n), Sum(b0, Stay(kept, g.gone, |kept|)));
  }

  lemma Regroup(a: Load, b: Load, c: Load, d: Load)
    ensures a.Plus(b).Plus(d.Plus(c)) == a.Plus(b.Plus(c)).Plus(d)
  {
  }

  lemma SupersAreNew(b0: Books, kept: seq<Node>, p: Progress)
    requires SupersOk(b0, kept, p)
    ensures forall id {:trigger id in IdsOf(p.supers)} :: id in IdsOf(p.supers) ==> SuperOk(b0, kept, p.books, id)
  {
  }

  lemma MemberLoad(b0: Books, kept: seq<Node>, p: Progress, f: Filling, i: int)
    requires SupersOk(b0, kept, p) && Untouched(b0, p.books, IdsOf(p.supers)) && 0 <= i < |kept|
      && NewId(b0, kept, f.super.id)
    requires f.books.superHosts == p.books.superHosts
    requires forall id :: id != f.super.id ==>
      (id in f.books.visible <==> id in p.books.visible)
        && (id in f.books.visible ==> f.books.visible[id] == p.books.visible[id])
    ensures kept[i].id != f.super.id && LoadOf(f.books, kept[i]) == LoadOf(b0, kept[i])
  {
    assert kept[i].id in IdsOf(kept);
    SupersAreNew(b0, kept, p);
  }

  lemma SumWithNew(b: Books, d: Books, supers: seq<Node>, super: Node, hosts: int)
    requires super.id !in IdsOf(supers) && hosts > 0
    requires d.superHosts == b.superHosts[super.id := hosts]
    requires forall id :: id != super.id ==>
      (id in d.visible <==> id in b.visible) && (id in d.visible ==> d.visible[id] == b.visible[id])
    ensures Sum(d, supers + [super])
      == Sum(b, supers).Plus(Load(super.packets, super.bytes, VisibleAt(d.visible, super.id), hosts))
  {
    forall i | 0 <= i < |supers| ensures LoadOf(b, supers[i]) == LoadOf(d, supers[i]) {
      assert supers[i].id in IdsOf(supers);
    }
    hide Sum, Load.Plus;
    SumIgnores(b, d, supers);
    SumAppend(d, supers, [super]);
    OneSum(d, super);
  }

  function Finished(p: Progress, f: Filling, tail: bool): Progress {
    Progress(f.books.(superHosts := f.books.superHosts[f.super.id := f.hosts], tails := if tail
      then f.books.tails + {f.super.id} else f.books.tails),
             f.gone, p.supers + [f.super])
  }

  ghost predicate Joined(kept: seq<Node>, p: Progress, f: Filling, members: set<int>) {
    && (forall i :: i in members ==> 0 <= i < |kept|)
    && f.gone == p.gone + members
    && (forall i :: i in members ==> kept[i].id in f.books.hostToSuper && f.books.hostToSuper[kept[i].id] == f.super.id)
    && (forall id {:trigger id in f.books.hostToSuper} :: id in f.books.hostToSuper ==>
      id in p.books.hostToSuper || exists i :: i in members && kept[i].id == id)
    && (forall id {:trigger id in p.books.hostToSuper} :: id in p.books.hostToSuper ==>
          id in f.books.hostToSuper && ((forall i :: i in members ==> kept[i].id != id) ==>
            f.books.hostToSuper[id] == p.books.hostToSuper[id]))
  }

  lemma FinishKeeps(b0: Books, kept: seq<Node>, p: Progress, f: Filling, members: set<int>, tail: bool)
    requires InProgress(b0, kept, p) && FillOk(b0, kept, p, f) && Joined(kept, p, f, members) && members !! p.gone
      && AllShown(b0, kept)
    requires NewId(b0, kept, f.super.id) && f.super.id !in IdsOf(p.supers) && HasSlash(f.super.id) && f.hosts > 0
    ensures InProgress(b0, kept, Finished(p, f, tail))
  {
    MoreIds(p.supers, f.super);
    FilledParts(b0, kept, p, f);
    hide HasSlash, SupersOk, Untouched, MovedOut, LoadsBalance, AllShown, Joined, NewId, IdsOf, Finished, FillOk;
    FinishBalances(b0, kept, p, f, tail);
    SupersStay(b0, kept, p, f, tail);
    FinishTouches(b0, kept, p, f, tail);
    MovedStays(b0, kept, p, f, members, tail);
  }

  lemma FilledParts(b0: Books, kept: seq<Node>, p: Progress, f: Filling)
    requires FillOk(b0, kept, p, f)
    ensures f.books.superHosts == p.books.superHosts
  {
  }

  lemma FinishBalances(b0: Books, kept: seq<Node>, p: Progress, f: Filling, tail: bool)
    requires FillOk(b0, kept, p, f) && f.super.id !in IdsOf(p.supers) && f.hosts > 0
    ensures LoadsBalance(b0, kept, Finished(p, f, tail))
  {
    hide Sum, Stay, IdsOf, Load.Plus;
    SumWithNew(p.books, Finished(p, f, tail).books, p.supers, f.super, f.hosts);
  }

  lemma FinishTouches(b0: Books, kept: seq<Node>, p: Progress, f: Filling, tail: bool)
    requires FillOk(b0, kept, p, f) && Untouched(b0, p.books, IdsOf(p.supers))
    requires IdsOf(p.supers + [f.super]) == IdsOf(p.supers) + {f.super.id}
    ensures Untouched(b0, Finished(p, f, tail).books, IdsOf(Finished(p, f, tail).supers))
  {
    hide Sum, Stay, IdsOf, Load.Plus, FillLoad;
  }

  lemma MoreIds(nodes: seq<Node>, n: Node)
    ensures IdsOf(nodes + [n]) == IdsOf(nodes) + {n.id}
  {
    forall id | id in IdsOf(nodes) ensures id in IdsOf(nodes + [n]) {
      var i :| 0 <= i < |nodes| && nodes[i].id == id;
      assert (nodes + [n])[i].id == id;
    }
    assert (nodes + [n])[|nodes|].id == n.id;
  }

  lemma SupersStay(b0: Books, kept: seq<Node>, p: Progress, f: Filling, tail: bool)
    requires SupersOk(b0, kept, p) && f.super.id !in IdsOf(p.supers) && f.books.superHosts == p.books.superHosts
    requires NewId(b0, kept, f.super.id) && HasSlash(f.super.id) && f.hosts > 0
    ensures SupersOk(b0, kept, Finished(p, f, tail))
  {
    hide HasSlash, NewId;
    forall k | 0 <= k < |p.supers|
      ensures p.supers[k].id != f.super.id && SuperOk(b0, kept, Finished(p, f, tail).books, p.supers[k].id) {
      assert p.supers[k].id in IdsOf(p.supers);
      assert SuperOk(b0, kept, p.books, p.supers[k].id);
    }
  }

  lemma MovedStays(b0: Books, kept: seq<Node>, p: Progress, f: Filling, members: set<int>, tail: bool)
    requires MovedOut(b0, kept, p) && Joined(kept, p, f, members) && members !! p.gone && AllShown(b0, kept)
    requires IdsOf(p.supers + [f.super]) == IdsOf(p.supers) + {f.super.id}
    ensures MovedOut(b0, kept, Finished(p, f, tail))
  {
    hide IdsOf;
    var q := Finished(p, f, tail);
    forall i | i in q.gone ensures kept[i].id in q.books.hostToSuper
      && q.books.hostToSuper[kept[i].id] in IdsOf(q.supers) {
      if i !in members {
        assert i in p.gone;
        assert forall j :: j in members ==> kept[j].id != kept[i].id;
      }
    }
    forall id | id in q.books.hostToSuper ensures id in b0.hostToSuper || exists i :: i in q.gone && kept[i].id == id {
      if id !in p.books.hostToSuper {
        var i :| i in members && kept[i].id == id;
        assert i in q.gone;
      } else if id !in b0.hostToSuper {
        var i :| i in p.gone && kept[i].id == id;
        assert i in q.gone;
      }
    }
    forall id | id in b0.hostToSuper
      ensures id in q.books.hostToSuper && q.books.hostToSuper[id] == b0.hostToSuper[id] {
      assert forall i :: i in members ==> kept[i].id != id;
    }
  }

  /** Folds the listed nodes into one supernode. */
  method FoldMembers(ghost b0: Books, kept: seq<Node>, p: Progress, idxs: seq<int>, superId: string, tail: bool)
    returns (q: Progress)
    requires InProgress(b0, kept, p) && AllShown(b0, kept) && idxs != []
    requires (forall k :: 0 <= k < |idxs| ==> 0 <= idxs[k] < |kept| && idxs[k] !in p.gone)
      && forall j, k :: 0 <= j < k < |idxs| ==> idxs[j] != idxs[k]
    requires NewId(b0, kept, superId) && superId !in IdsOf(p.supers) && HasSlash(superId)
    ensures InProgress(b0, kept, q) && q.gone == p.gone + Indices(idxs)
    ensures IdsOf(q.supers) == IdsOf(p.supers) + {superId}
    ensures forall k :: 0 <= k < |idxs| ==>
      kept[idxs[k]].id in q.books.hostToSuper && q.books.hostToSuper[kept[idxs[k]].id] == superId
    ensures forall i :: i in p.gone ==>
      kept[i].id in q.books.hostToSuper && q.books.hostToSuper[kept[i].id] == p.books.hostToSuper[kept[i].id]
    ensures q.books.tails == if tail then p.books.tails + {superId} else p.books.tails
  {
    hide LoadsBalance, SupersOk, Untouched, NewId, HasSlash, IdsOf, Sum, Stay, Load.Plus, Indices, MovedOut, AllShown;
    assert idxs[..0] == [];
    NoIndices();
    var f := Filling(Node(superId, "", 0, 0, false), 0, p.books, p.gone);
    StartsFilling(b0, kept, p, f);
    for k := 0 to |idxs|
      invariant FillOk(b0, kept, p, f) && f.super.id == superId && f.hosts >= k
      invariant Joined(kept, p, f, Indices(idxs[..k]))
    {
      hide FillOk, Joined, InProgress, AllShown;
      ghost var before := f;
      ghost var members := Indices(idxs[..k]);
      NotYetJoined(kept, p, f, idxs, k);
      f := FillOne(b0, kept, p, f, idxs[k]);
      OneJoined(kept, p, before, f, members, idxs[k]);
      OneMoreIndex(idxs, k);
    }
    ghost var members := Indices(idxs);
    assert idxs[..|idxs|] == idxs;
    MembersFree(p, kept, idxs);
    FinishKeeps(b0, kept, p, f, members, tail);
    q := Finished(p, f, tail);
    MoreIds(p.supers, f.super);
    JoinedParts(b0, kept, p, f, members);
  }

  lemma StartsFilling(b0: Books, kept: seq<Node>, p: Progress, f: Filling)
    requires InProgress(b0, kept, p) && NewId(b0, kept, f.super.id) && f.super.id !in IdsOf(p.supers)
    requires f == Filling(Node(f.super.id, "", 0, 0, false), 0, p.books, p.gone)
    ensures FillOk(b0, kept, p, f) && Joined(kept, p, f, {})
  {
    hide Sum, Stay, Load.Plus, SupersOk, IdsOf, MovedOut;
    assert FillLoad(f) == NO_LOAD;
    LoadLaws(Sum(p.books, p.supers), NO_LOAD, NO_LOAD);
  }

  lemma NotYetJoined(kept: seq<Node>, p: Progress, f: Filling, idxs: seq<int>, k: nat)
    requires k < |idxs| && Joined(kept, p, f, Indices(idxs[..k]))
    requires (forall j :: 0 <= j < |idxs| ==> idxs[j] !in p.gone) && forall i, j :: 0 <= i < j < |idxs| ==>
      idxs[i] != idxs[j]
    ensures idxs[k] !in f.gone
  {
  }

  lemma OneJoined(kept: seq<Node>, p: Progress, f: Filling, g: Filling, members: set<int>, i: int)
    requires Joined(kept, p, f, members) && 0 <= i < |kept| && g.gone == f.gone + {i} && g.super.id == f.super.id
    requires g.books.hostToSuper == f.books.hostToSuper[kept[i].id := f.super.id]
    ensures Joined(kept, p, g, members + {i})
  {
    forall id | id in g.books.hostToSuper
      ensures id in p.books.hostToSuper || exists j :: j in members + {i} && kept[j].id == id {
      if id == kept[i].id {
        assert i in members + {i};
      } else if id !in p.books.hostToSuper {
        var j :| j in members && kept[j].id == id;
        assert j in members + {i};
      }
    }
  }

  lemma JoinedParts(b0: Books, kept: seq<Node>, p: Progress, f: Filling, members: set<int>)
    requires Joined(kept, p, f, members) && members !! p.gone && AllShown(b0, kept) && MovedOut(b0, kept, p)
    ensures forall i :: i in members ==>
      kept[i].id in f.books.hostToSuper && f.books.hostToSuper[kept[i].id] == f.super.id
    ensures forall i :: i in p.gone ==>
      kept[i].id in f.books.hostToSuper && f.books.hostToSuper[kept[i].id] == p.books.hostToSuper[kept[i].id]
  {
  }

  // ---- one level ----

  /** The indices of one group that a level folds into a supernode, and which one. */
  ghost predicate GroupDecided(o: Opened, filtering: bool, visible: map<string, int>, kept: seq<Node>, group: set<int>,
                               cidr: string,
                               gone: set<int>, hostToSuper: map<string, string>)
  {
    if o.IsFull(cidr) then group !! gone
    else if o.IsExpanded(cidr) then
      if |group| <= o.budget then group !! gone
      else
        && |group - gone| == o.budget
        && (forall i :: i in group && i in gone ==> GoesTo(kept, i, TailId(cidr), hostToSuper))
        && (forall i, j :: i in group && i !in gone && j in group && j in gone && 0 <= i < |kept| && 0 <= j < |kept| ==>
              Effective(filtering, visible, kept[i]) >= Effective(filtering, visible, kept[j]))
    else if |group| < MIN_HOSTS_TO_COLLAPSE then group !! gone
    else group <= gone && forall i :: i in group ==> GoesTo(kept, i, cidr, hostToSuper)
  }

  ghost predicate GoesTo(kept: seq<Node>, i: int, superId: string, hostToSuper: map<string, string>) {
    0 <= i < |kept| && kept[i].id in hostToSuper && hostToSuper[kept[i].id] == superId
  }

  /** Every group whose key is in `done` is decided; nothing else has been touched. */
  ghost predicate Decided(o: Opened, filtering: bool, b0: Books, kept: seq<Node>, keyOf: Node -> string,
                          overrides: set<string>,
                          done: set<string>, p: Progress)
  {
    && (forall cidr {:trigger cidr in done} :: cidr in done ==>
          GroupDecided(o, filtering, b0.visible, kept, Group(kept, keyOf, overrides, cidr), cidr, p.gone,
            p.books.hostToSuper))
    && (forall i :: i in p.gone ==>
      0 <= i < |kept| && keyOf(kept[i]) in done && keyOf(kept[i]) != "" && !IsGroup(overrides, kept[i]))
    && (forall id :: id in IdsOf(p.supers) ==> SuperOf(done, id))
  }

  ghost predicate SuperOf(done: set<string>, id: string) {
    id in done || exists cidr :: cidr in done && id == TailId(cidr)
  }

  /** Ascending indices of a group. */
  function Members(kept: seq<Node>, keyOf: Node -> string, overrides: set<string>, cidr: string, n: nat): (r: seq<int>)
    requires n <= |kept|
    ensures forall k :: 0 <= k < |r| ==> 0 <= r[k] < n
    ensures forall j, k :: 0 <= j < k < |r| ==> r[j] < r[k]
    ensures forall i :: i in r <==> 0 <= i < n && !IsGroup(overrides, kept[i]) && keyOf(kept[i]) == cidr
  {
    if n == 0 then []
    else
      var past := Members(kept, keyOf, overrides, cidr, n - 1);
      if !IsGroup(overrides, kept[n - 1]) && keyOf(kept[n - 1]) == cidr then past + [n - 1] else past
  }

  lemma MembersAreGroup(kept: seq<Node>, keyOf: Node -> string, overrides: set<string>, cidr: string)
    ensures var r := Members(kept, keyOf, overrides, cidr, |kept|);
      && Indices(r) == Group(kept, keyOf, overrides, cidr) && |Group(kept, keyOf, overrides, cidr)| == |r|
  {
    hide IsGroup;
    var r := Members(kept, keyOf, overrides, cidr, |kept|);
    assert Indices(r) == Group(kept, keyOf, overrides, cidr);
    Cardinality(r);
  }

  lemma {:induction false} Cardinality(r: seq<int>)
    requires forall j, k :: 0 <= j < k < |r| ==> r[j] != r[k]
    ensures |Indices(r)| == |r|
  {
    if r != [] {
      var past, last := r[..|r| - 1], r[|r| - 1];
      Cardinality(past);
      assert r == past + [last];
      assert Indices(r) == Indices(past) + {last} && last !in past;
    }
  }

  /** The members by falling effective traffic; equally busy ones in any order. */
  method SortMembers(filtering: bool, visible: map<string, int>, kept: seq<Node>, members: seq<int>)
    returns (sorted: seq<int>)
    requires (forall k :: 0 <= k < |members| ==> 0 <= members[k] < |kept|) && forall j, k :: 0 <= j < k < |members| ==>
      members[j] != members[k]
    ensures |sorted| == |members| && Indices(sorted) == Indices(members)
    ensures forall j, k :: 0 <= j < k < |sorted| ==> sorted[j] != sorted[k]
    ensures forall j, k :: 0 <= j < k < |sorted| && 0 <= sorted[j] < |kept| && 0 <= sorted[k] < |kept| ==>
      Effective(filtering, visible, kept[sorted[j]]) >= Effective(filtering, visible, kept[sorted[k]])
  {
    var weights := map i | i in members :: if 0 <= i < |kept| then Effective(filtering, visible, kept[i]) else 0;
    assert |weights.Keys| == |members| by {
      Cardinality(members);
      assert weights.Keys == Indices(members);
    }
    sorted := SortFalling(weights);
  }

  /** Deciding one more group leaves the others as they were. */
  lemma StillDecided(o: Opened, filtering: bool, b0: Books, kept: seq<Node>, group: set<int>, cidr: string, p: Progress,
                     q: Progress, more: set<int>)
    requires GroupDecided(o, filtering, b0.visible, kept, group, cidr, p.gone, p.books.hostToSuper)
    requires q.gone == p.gone + more && more !! group && forall i :: i in p.gone ==> 0 <= i < |kept|
    requires forall i :: i in p.gone && 0 <= i < |kept| && kept[i].id in p.books.hostToSuper ==>
      kept[i].id in q.books.hostToSuper && q.books.hostToSuper[kept[i].id] == p.books.hostToSuper[kept[i].id]
    ensures GroupDecided(o, filtering, b0.visible, kept, group, cidr, q.gone, q.books.hostToSuper)
  {
    hide Effective;
    assert group - q.gone == group - p.gone;
    forall i, superId | GoesTo(kept, i, superId, p.books.hostToSuper) && i in p.gone
      ensures GoesTo(kept, i, superId, q.books.hostToSuper) {
    }
  }

  lemma NewSuper(b0: Books, kept: seq<Node>, keyOf: Node -> string, done: set<string>, supers: set<string>,
                 cidr: string, i: int)
    requires Fresh(b0, kept, keyOf) && 0 <= i < |kept| && keyOf(kept[i]) == cidr != "" && cidr !in done
    requires (forall c :: c in done ==> !EndsPlus(c)) && forall id :: id in supers ==> SuperOf(done, id)
    ensures NewId(b0, kept, cidr) && NewId(b0, kept, TailId(cidr)) && HasSlash(cidr) && HasSlash(TailId(cidr))
      && !EndsPlus(cidr)
    ensures cidr !in supers && TailId(cidr) !in supers
  {
    hide NewId;
    assert FreshKey(b0, kept, cidr);
    var k :| 0 <= k < |cidr| && cidr[k] == '/';
    assert TailId(cidr)[k] == '/' && EndsPlus(TailId(cidr));
    forall c ensures cidr != TailId(c) && (TailId(cidr) == TailId(c) ==> c == cidr) {
      assert EndsPlus(TailId(c));
      assert TailId(c)[..|c|] == c && TailId(cidr)[..|cidr|] == cidr;
    }
  }

  /** What folding some members of one undecided group leaves behind. */
  lemma DecidedMore(o: Opened, filtering: bool, b0: Books, kept: seq<Node>, keyOf: Node -> string,
                    overrides: set<string>,
                    done: set<string>, cidr: string, p: Progress, q: Progress, more: set<int>)
    requires Decided(o, filtering, b0, kept, keyOf, overrides, done, p) && cidr !in done && cidr != ""
    requires more <= Group(kept, keyOf, overrides, cidr) && q.gone == p.gone + more
    requires forall i :: i in p.gone && 0 <= i < |kept| && kept[i].id in p.books.hostToSuper ==>
      kept[i].id in q.books.hostToSuper && q.books.hostToSuper[kept[i].id] == p.books.hostToSuper[kept[i].id]
    requires forall id :: id in IdsOf(q.supers) ==> id in IdsOf(p.supers) || id == cidr || id == TailId(cidr)
    requires GroupDecided(o, filtering, b0.visible, kept, Group(kept, keyOf, overrides, cidr), cidr, q.gone,
      q.books.hostToSuper)
    ensures Decided(o, filtering, b0, kept, keyOf, overrides, done + {cidr}, q)
  {
    hide GroupDecided, IdsOf, IsGroup;
    forall c | c in done ensures GroupDecided(o, filtering, b0.visible, kept, Group(kept, keyOf, overrides, c), c,
      q.gone, q.books.hostToSuper) {
      StillDecided(o, filtering, b0, kept, Group(kept, keyOf, overrides, c), c, p, q, more);
    }
    forall id | id in IdsOf(q.supers) ensures SuperOf(done + {cidr}, id) {
      if id in IdsOf(p.supers) {
        assert SuperOf(done, id);
        if id !in done { var c :| c in done && id == TailId(c); assert c in done + {cidr}; }
      } else {
        assert cidr in done + {cidr};
      }
    }
  }

  /** One group: left open, opened up to the budget with a residual tail, or folded whole. */
  method DecideGroup(ghost b0: Books, kept: seq<Node>, p: Progress, o: Opened, filtering: bool, keyOf: Node -> string,
                     overrides: set<string>,
                     ghost done: set<string>, cidr: string, visible: map<string, int>)
    returns (q: Progress)
    requires InProgress(b0, kept, p) && AllShown(b0, kept) && Fresh(b0, kept, keyOf) && visible == b0.visible
    requires Decided(o, filtering, b0, kept, keyOf, overrides, done, p) && (forall c :: c in done ==> !EndsPlus(c))
    requires cidr !in done && cidr != "" && exists i :: 0 <= i < |kept| && keyOf(kept[i]) == cidr
    ensures InProgress(b0, kept, q) && Decided(o, filtering, b0, kept, keyOf, overrides, done + {cidr}, q)
      && !EndsPlus(cidr)
  {
    hide InProgress, AllShown, Fresh, NewId, HasSlash, EndsPlus, IdsOf, IsGroup, Effective, TailId;
    ghost var i :| 0 <= i < |kept| && keyOf(kept[i]) == cidr;
    NewSuper(b0, kept, keyOf, done, IdsOf(p.supers), cidr, i);
    var members := Members(kept, keyOf, overrides, cidr, |kept|);
    ghost var group := Group(kept, keyOf, overrides, cidr);
    MembersAreGroup(kept, keyOf, overrides, cidr);
    if o.IsFull(cidr) || (o.IsExpanded(cidr) && |members| <= o.budget)
      || (!o.IsExpanded(cidr) && |members| < MIN_HOSTS_TO_COLLAPSE) {
      q := p;
      assert group !! p.gone;
      DecidedMore(o, filtering, b0, kept, keyOf, overrides, done, cidr, p, q, {});
    } else if o.IsExpanded(cidr) {
      q := FoldTail(b0, kept, p, o, filtering, keyOf, overrides, done, cidr, members, visible);
    } else {
      q := FoldMembers(b0, kept, p, members, cidr, false);
      AllFolded(o, filtering, b0, kept, group, cidr, p, q, members);
      DecidedMore(o, filtering, b0, kept, keyOf, overrides, done, cidr, p, q, group);
    }
  }

  lemma AllFolded(o: Opened, filtering: bool, b0: Books, kept: seq<Node>, group: set<int>, cidr: string, p: Progress,
                  q: Progress, members: seq<int>)
    requires group == Indices(members) && |group| == |members| >= MIN_HOSTS_TO_COLLAPSE && !o.IsExpanded(cidr)
    requires q.gone == p.gone + group && forall k :: 0 <= k < |members| ==> 0 <= members[k] < |kept|
    requires forall k :: 0 <= k < |members| ==>
      kept[members[k]].id in q.books.hostToSuper && q.books.hostToSuper[kept[members[k]].id] == cidr
    ensures GroupDecided(o, filtering, b0.visible, kept, group, cidr, q.gone, q.books.hostToSuper)
  {
  }

  /** The members past the budget, by falling effective traffic. */
  ghost predicate IsTail(filtering: bool, visible: map<string, int>, kept: seq<Node>, group: set<int>, budget: nat,
                         rest: seq<int>) {
    && rest != [] && (forall j, k :: 0 <= j < k < |rest| ==> rest[j] != rest[k])
    && (forall k :: 0 <= k < |rest| ==> rest[k] in group) && Indices(rest) <= group
    && |group - Indices(rest)| == budget
    && (forall i, j :: i in group && i !in Indices(rest) && j in Indices(rest) && 0 <= i < |kept| && 0 <= j < |kept| ==>
          Effective(filtering, visible, kept[i]) >= Effective(filtering, visible, kept[j]))
  }

  method QuietMembers(filtering: bool, visible: map<string, int>, kept: seq<Node>, members: seq<int>, budget: nat)
    returns (rest: seq<int>)
    requires (forall k :: 0 <= k < |members| ==> 0 <= members[k] < |kept|) && forall j, k :: 0 <= j < k < |members| ==>
      members[j] != members[k]
    requires |members| > budget
    ensures IsTail(filtering, visible, kept, Indices(members), budget, rest)
  {
    hide Effective;
    var sorted := SortMembers(filtering, visible, kept, members);
    rest := sorted[budget..];
    TailOf(filtering, visible, kept, members, sorted, budget);
  }

  lemma TailSplit(sorted: seq<int>, budget: nat)
    requires budget <= |sorted| && forall j, k :: 0 <= j < k < |sorted| ==> sorted[j] != sorted[k]
    ensures forall k :: 0 <= k < |sorted| ==> (sorted[k] in Indices(sorted[budget..]) <==> k >= budget)
  {
  }

  lemma NoIndices()
    ensures Indices([]) == {}
  {
  }

  lemma MembersFree(p: Progress, kept: seq<Node>, idxs: seq<int>)
    requires forall k :: 0 <= k < |idxs| ==> 0 <= idxs[k] < |kept| && idxs[k] !in p.gone
    ensures Indices(idxs) !! p.gone && (forall k :: 0 <= k < |idxs| ==> idxs[k] in Indices(idxs))
  {
  }

  lemma IndicesAre(s: seq<int>)
    ensures forall i :: i in s <==> i in Indices(s)
  {
  }

  lemma OneMoreIndex(s: seq<int>, k: nat)
    requires k < |s|
    ensures Indices(s[..k + 1]) == Indices(s[..k]) + {s[k]}
  {
  }

  lemma OnlyThese(s: seq<int>, group: set<int>)
    requires forall k :: 0 <= k < |s| ==> s[k] in group
    ensures Indices(s) <= group
  {
  }

  lemma Quieter(filtering: bool, visible: map<string, int>, kept: seq<Node>, sorted: seq<int>, budget: nat, i: int,
                j: int)
    requires budget <= |sorted| && i in sorted && i !in Indices(sorted[budget..]) && j in Indices(sorted[budget..])
    requires 0 <= i < |kept| && 0 <= j < |kept| && forall j, k :: 0 <= j < k < |sorted| ==> sorted[j] != sorted[k]
    requires forall j, k :: 0 <= j < k < |sorted| && 0 <= sorted[j] < |kept| && 0 <= sorted[k] < |kept| ==>
      Effective(filtering, visible, kept[sorted[j]]) >= Effective(filtering, visible, kept[sorted[k]])
    ensures Effective(filtering, visible, kept[i]) >= Effective(filtering, visible, kept[j])
  {
  }

  lemma TailOf(filtering: bool, visible: map<string, int>, kept: seq<Node>, members: seq<int>, sorted: seq<int>,
               budget: nat)
    requires budget < |sorted| && Indices(sorted) == Indices(members)
    requires forall j, k :: 0 <= j < k < |sorted| ==> sorted[j] != sorted[k]
    requires forall j, k :: 0 <= j < k < |sorted| && 0 <= sorted[j] < |kept| && 0 <= sorted[k] < |kept| ==>
      Effective(filtering, visible, kept[sorted[j]]) >= Effective(filtering, visible, kept[sorted[k]])
    ensures IsTail(filtering, visible, kept, Indices(members), budget, sorted[budget..])
  {
    hide Effective, Indices;
    var group, rest := Indices(members), sorted[budget..];
    IndicesAre(sorted);
    TailSplit(sorted, budget);
    StayingCount(group, Indices(rest), sorted, budget);
    forall k | 0 <= k < |rest| ensures rest[k] in group { assert rest[k] in sorted; }
    OnlyThese(rest, group);
    forall i, j | i in group && i !in Indices(rest) && j in Indices(rest) && 0 <= i < |kept| && 0 <= j < |kept|
      ensures Effective(filtering, visible, kept[i]) >= Effective(filtering, visible, kept[j])
    {
      Quieter(filtering, visible, kept, sorted, budget, i, j);
    }
  }

  method FoldTail(ghost b0: Books, kept: seq<Node>, p: Progress, o: Opened, filtering: bool, keyOf: Node -> string,
                  overrides: set<string>,
                  ghost done: set<string>, cidr: string, members: seq<int>, visible: map<string, int>)
    returns (q: Progress)
    requires InProgress(b0, kept, p) && AllShown(b0, kept) && visible == b0.visible
    requires Decided(o, filtering, b0, kept, keyOf, overrides, done, p) && cidr !in done && cidr != ""
    requires (forall k :: 0 <= k < |members| ==> 0 <= members[k] < |kept|) && forall j, k :: 0 <= j < k < |members| ==>
      members[j] != members[k]
    requires Indices(members) == Group(kept, keyOf, overrides, cidr)
      && |Group(kept, keyOf, overrides, cidr)| == |members|
    requires |members| > o.budget && o.IsExpanded(cidr) && !o.IsFull(cidr)
    requires NewId(b0, kept, TailId(cidr)) && HasSlash(TailId(cidr)) && TailId(cidr) !in IdsOf(p.supers)
    ensures InProgress(b0, kept, q) && Decided(o, filtering, b0, kept, keyOf, overrides, done + {cidr}, q)
  {
    hide InProgress, AllShown, NewId, HasSlash, IdsOf, IsGroup, Effective, TailId, Decided, GroupDecided, Indices;
    ghost var group := Group(kept, keyOf, overrides, cidr);
    UndecidedIsWhole(o, filtering, b0, kept, keyOf, overrides, done, cidr, p);
    var rest := QuietMembers(filtering, visible, kept, members, o.budget);
    q := FoldMembers(b0, kept, p, rest, TailId(cidr), true);
    TailFolded(o, filtering, b0, kept, group, cidr, p, q, rest);
    DecidedMore(o, filtering, b0, kept, keyOf, overrides, done, cidr, p, q, Indices(rest));
  }

  lemma UndecidedIsWhole(o: Opened, filtering: bool, b0: Books, kept: seq<Node>, keyOf: Node -> string,
                         overrides: set<string>,
                         done: set<string>, cidr: string, p: Progress)
    requires Decided(o, filtering, b0, kept, keyOf, overrides, done, p) && cidr !in done
    ensures Group(kept, keyOf, overrides, cidr) !! p.gone
  {
  }

  lemma TailFolded(o: Opened, filtering: bool, b0: Books, kept: seq<Node>, group: set<int>, cidr: string, p: Progress,
                   q: Progress, rest: seq<int>)
    requires o.IsExpanded(cidr) && !o.IsFull(cidr) && |group| > o.budget && group !! p.gone
      && (forall i :: i in group ==> 0 <= i < |kept|)
    requires IsTail(filtering, b0.visible, kept, group, o.budget, rest) && q.gone == p.gone + Indices(rest)
    requires forall k :: 0 <= k < |rest| ==>
      kept[rest[k]].id in q.books.hostToSuper && q.books.hostToSuper[kept[rest[k]].id] == TailId(cidr)
    ensures GroupDecided(o, filtering, b0.visible, kept, group, cidr, q.gone, q.books.hostToSuper)
  {
    hide Effective, TailId;
    assert group - q.gone == group - Indices(rest);
    forall i | i in group && i in q.gone ensures GoesTo(kept, i, TailId(cidr), q.books.hostToSuper) {
      var k :| 0 <= k < |rest| && rest[k] == i;
    }
  }

  lemma StayingCount(group: set<int>, gone: set<int>, sorted: seq<int>, budget: nat)
    requires (forall i :: i in sorted <==> i in group) && budget <= |sorted|
    requires forall j, k :: 0 <= j < k < |sorted| ==> sorted[j] != sorted[k]
    requires forall k :: 0 <= k < |sorted| ==> (sorted[k] in gone <==> k >= budget)
    ensures |group - gone| == budget
  {
    var first := sorted[..budget];
    Cardinality(first);
    forall i ensures i in group - gone <==> i in first {
      if i in group - gone {
        var k :| 0 <= k < |sorted| && sorted[k] == i;
        assert first[k] == i;
      }
      if i in first {
        var k :| 0 <= k < |first| && first[k] == i;
        assert sorted[k] == i;
      }
    }
    assert group - gone == Indices(first);
  }

  // ---- the whole level ----

  /** What a level makes of the nodes shown: same loads, and every node still shown or gone into a supernode shown. */
  ghost predicate Folds(b0: Books, kept: seq<Node>, b: Books, after: seq<Node>) {
    && Sum(b, after) == Sum(b0, kept) && AllShown(b, after) && b0.superHosts.Keys <= b.superHosts.Keys
    && (forall i :: 0 <= i < |kept| ==>
      kept[i] in after || (kept[i].id in b.hostToSuper && b.hostToSuper[kept[i].id] in IdsOf(after)))
    && (forall n :: n in after ==> n in kept || NewSuperNode(b0, kept, b, n))
    && (forall id {:trigger id in b0.hostToSuper} :: id in b0.hostToSuper ==>
      id in b.hostToSuper && b.hostToSuper[id] == b0.hostToSuper[id])
    && (forall id {:trigger id in b.hostToSuper} :: id in b.hostToSuper && id !in b0.hostToSuper ==>
          id in IdsOf(kept) && b.hostToSuper[id] in IdsOf(after) && b.hostToSuper[id] in b.superHosts)
  }

  ghost predicate NewSuperNode(b0: Books, kept: seq<Node>, b: Books, n: Node) {
    HasSlash(n.id) && NewId(b0, kept, n.id) && n.id in b.superHosts && b.superHosts[n.id] > 0
  }

  /** Every group of the level is decided. */
  ghost predicate LevelDone(o: Opened, filtering: bool, b0: Books, kept: seq<Node>, keyOf: Node -> string,
                            overrides: set<string>,
                            done: set<string>, p: Progress)
  {
    && InProgress(b0, kept, p) && Decided(o, filtering, b0, kept, keyOf, overrides, done, p)
    && forall i :: 0 <= i < |kept| && keyOf(kept[i]) != "" && !IsGroup(overrides, kept[i]) ==> keyOf(kept[i]) in done
  }

  ghost predicate IsKey(kept: seq<Node>, keyOf: Node -> string, c: string) {
    c != "" && exists i :: 0 <= i < |kept| && keyOf(kept[i]) == c
  }

  /** One level: hosts with the same key fold into supernodes, in whatever order the groups are visited. */
  method CollapseLevel(kept: seq<Node>, b0: Books, o: Opened, filtering: bool, keyOf: Node -> string,
                       overrides: set<string>)
    returns (after: seq<Node>, b: Books, ghost p: Progress, ghost done: set<string>)
    requires AllShown(b0, kept) && Fresh(b0, kept, keyOf)
    ensures Folds(b0, kept, b, after)
    ensures LevelDone(o, filtering, b0, kept, keyOf, overrides, done, p) && p.books == b
      && after == p.supers + Stay(kept, p.gone, |kept|)
    ensures forall c :: c in done ==> IsKey(kept, keyOf, c)
  {
    hide InProgress, AllShown, Fresh, Decided, IdsOf, IsGroup, NewId, Folds, IsKey;
    var todo := LevelKeys(kept, keyOf, overrides);
    ghost var all := todo;
    KeysAre(kept, keyOf, overrides);
    done := {};
    var q := Progress(b0, {}, []);
    StartsBalanced(b0, kept);
    NoneDecided(o, filtering, b0, kept, keyOf, overrides);
    while todo != {}
      invariant todo <= all && done == all - todo && (forall c :: c in done ==> !EndsPlus(c))
      invariant InProgress(b0, kept, q) && Decided(o, filtering, b0, kept, keyOf, overrides, done, q)
      decreases |todo|
    {
      hide LevelKeys;
      var cidr :| cidr in todo;
      KeyIsUsed(kept, keyOf, cidr);
      q := DecideGroup(b0, kept, q, o, filtering, keyOf, overrides, done, cidr, b0.visible);
      todo, done := todo - {cidr}, done + {cidr};
    }
    assert done == all;
    p := q;
    b, after := q.books, q.supers + Stay(kept, q.gone, |kept|);
    LevelFolds(b0, kept, q);
  }

  function LevelKeys(kept: seq<Node>, keyOf: Node -> string, overrides: set<string>): set<string> {
    set i | 0 <= i < |kept| && keyOf(kept[i]) != "" && !IsGroup(overrides, kept[i]) :: keyOf(kept[i])
  }

  lemma KeysAre(kept: seq<Node>, keyOf: Node -> string, overrides: set<string>)
    ensures forall c :: c in LevelKeys(kept, keyOf, overrides) ==> IsKey(kept, keyOf, c)
    ensures forall i :: 0 <= i < |kept| && keyOf(kept[i]) != "" && !IsGroup(overrides, kept[i]) ==>
      keyOf(kept[i]) in LevelKeys(kept, keyOf, overrides)
  {
  }

  lemma KeyIsUsed(kept: seq<Node>, keyOf: Node -> string, c: string)
    requires IsKey(kept, keyOf, c)
    ensures c != "" && exists i :: 0 <= i < |kept| && keyOf(kept[i]) == c
  {
  }

  lemma NoneDecided(o: Opened, filtering: bool, b0: Books, kept: seq<Node>, keyOf: Node -> string,
                    overrides: set<string>)
    ensures Decided(o, filtering, b0, kept, keyOf, overrides, {}, Progress(b0, {}, []))
  {
  }

  lemma OldNode(b0: Books, kept: seq<Node>, p: Progress, i: int)
    requires SupersOk(b0, kept, p) && Untouched(b0, p.books, IdsOf(p.supers)) && 0 <= i < |kept|
    ensures kept[i].id !in IdsOf(p.supers) && LoadOf(p.books, kept[i]) == LoadOf(b0, kept[i])
  {
  }

  lemma LevelSum(b0: Books, kept: seq<Node>, p: Progress)
    requires InProgress(b0, kept, p)
    ensures Sum(p.books, p.supers + Stay(kept, p.gone, |kept|)) == Sum(b0, kept)
  {
    var stay := Stay(kept, p.gone, |kept|);
    StayIs(kept, p.gone, |kept|);
    forall i | 0 <= i < |stay| ensures LoadOf(b0, stay[i]) == LoadOf(p.books, stay[i]) {
      assert stay[i] in stay;
      var k :| 0 <= k < |kept| && kept[k] == stay[i];
      OldNode(b0, kept, p, k);
    }
    SumIgnores(b0, p.books, stay);
    SumAppend(p.books, p.supers, stay);
  }

  lemma LevelDistinct(b0: Books, kept: seq<Node>, p: Progress)
    requires InProgress(b0, kept, p) && AllShown(b0, kept)
    ensures DistinctIds(p.supers + Stay(kept, p.gone, |kept|))
  {
    hide Sum, Stay, MovedOut;
    var stay := Stay(kept, p.gone, |kept|);
    StayIs(kept, p.gone, |kept|);
    forall i, j | 0 <= i < |p.supers| && 0 <= j < |stay| ensures p.supers[i].id != stay[j].id {
      assert stay[j] in stay;
      var k :| 0 <= k < |kept| && kept[k] == stay[j];
      OldNode(b0, kept, p, k);
    }
  }

  lemma LevelShown(b0: Books, kept: seq<Node>, p: Progress)
    requires InProgress(b0, kept, p) && AllShown(b0, kept)
    ensures forall n :: n in p.supers + Stay(kept, p.gone, |kept|) ==> n.id !in p.books.hostToSuper
  {
    hide Sum, Stay, LoadsBalance, Untouched;
    var stay := Stay(kept, p.gone, |kept|);
    StayIs(kept, p.gone, |kept|);
    forall n | n in p.supers + stay ensures n.id !in p.books.hostToSuper {
      if n in p.supers {
        var k :| 0 <= k < |p.supers| && p.supers[k] == n;
        assert SuperOk(b0, kept, p.books, p.supers[k].id);
        assert n.id !in IdsOf(kept);
      } else {
        var k :| 0 <= k < |kept| && k !in p.gone && kept[k] == n;
      }
    }
  }

  lemma LevelMoves(b0: Books, kept: seq<Node>, p: Progress)
    requires InProgress(b0, kept, p)
    ensures var after := p.supers + Stay(kept, p.gone, |kept|);
      && (forall i :: 0 <= i < |kept| ==>
        kept[i] in after || (kept[i].id in p.books.hostToSuper && p.books.hostToSuper[kept[i].id] in IdsOf(after)))
      && (forall id {:trigger id in p.books.hostToSuper} :: id in p.books.hostToSuper && id !in b0.hostToSuper ==>
            id in IdsOf(kept) && p.books.hostToSuper[id] in IdsOf(after)
              && p.books.hostToSuper[id] in p.books.superHosts)
  {
    hide Sum, LoadsBalance, Untouched, SupersOk, Stay, HasSlash, NewId;
    SupersAreNew(b0, kept, p);
    var stay := Stay(kept, p.gone, |kept|);
    var after := p.supers + stay;
    StayIs(kept, p.gone, |kept|);
    forall id | id in IdsOf(p.supers) ensures id in IdsOf(after) {
      var k :| 0 <= k < |p.supers| && p.supers[k].id == id;
      assert after[k].id == id;
    }
    forall i | 0 <= i < |kept| ensures kept[i] in after
      || (kept[i].id in p.books.hostToSuper && p.books.hostToSuper[kept[i].id] in IdsOf(after)) {
      if i !in p.gone { assert kept[i] in stay; }
    }
    forall id | id in p.books.hostToSuper && id !in b0.hostToSuper
      ensures id in IdsOf(kept) && p.books.hostToSuper[id] in IdsOf(after)
        && p.books.hostToSuper[id] in p.books.superHosts
    {
      var i :| i in p.gone && kept[i].id == id;
    }
  }

  lemma LevelOrigins(b0: Books, kept: seq<Node>, p: Progress)
    requires InProgress(b0, kept, p)
    ensures forall n :: n in p.supers + Stay(kept, p.gone, |kept|) ==> n in kept || NewSuperNode(b0, kept, p.books, n)
  {
    hide Sum, LoadsBalance, Untouched, MovedOut, Stay, HasSlash, NewId;
    StayIs(kept, p.gone, |kept|);
    forall n | n in p.supers ensures NewSuperNode(b0, kept, p.books, n) {
      var k :| 0 <= k < |p.supers| && p.supers[k] == n;
      assert SuperOk(b0, kept, p.books, p.supers[k].id);
    }
  }

  lemma SupersRemain(b0: Books, kept: seq<Node>, p: Progress)
    requires InProgress(b0, kept, p)
    ensures b0.superHosts.Keys <= p.books.superHosts.Keys
  {
  }

  lemma LevelFolds(b0: Books, kept: seq<Node>, p: Progress)
    requires InProgress(b0, kept, p) && AllShown(b0, kept)
    ensures Folds(b0, kept, p.books, p.supers + Stay(kept, p.gone, |kept|))
  {
    hide Sum, Stay, LoadsBalance, Untouched, HasSlash, NewId, SupersOk, DistinctIds, NewSuperNode, IdsOf;
    var after := p.supers + Stay(kept, p.gone, |kept|);
    LevelSum(b0, kept, p);
    LevelDistinct(b0, kept, p);
    LevelShown(b0, kept, p);
    LevelMoves(b0, kept, p);
    LevelOrigins(b0, kept, p);
    SupersRemain(b0, kept, p);
    assert AllShown(p.books, after) by {
      forall i | 0 <= i < |after| ensures after[i].id !in p.books.hostToSuper { assert after[i] in after; }
    }
  }
}
