/** What one level of aggregation leaves of a subnet, on its name and its hosts (graph/view.go BuildView). */
module FoldedSubnets {
  import opened GraphState
  import opened SubnetFold

  /** The node is still shown, and has not gone anywhere. */
  ghost predicate Stays(nodes: seq<Node>, i: int, m: map<string, string>, after: seq<Node>) {
    0 <= i < |nodes| && nodes[i] in after && nodes[i].id !in m
  }

  /** The node is not shown any more and remaps to `to`, which is. */
  ghost predicate Goes(nodes: seq<Node>, i: int, m: map<string, string>, after: seq<Node>, to: string) {
    && 0 <= i < |nodes| && (forall n :: n in after ==> n.id != nodes[i].id)
    && nodes[i].id in m && m[nodes[i].id] == to && exists n :: n in after && n.id == to
  }

  /** A node's packets, or under a protocol filter those visible. */
  ghost function Busy(filtering: bool, visible: map<string, int>, n: Node): int {
    if !filtering then n.packets else if n.id in visible then visible[n.id] else 0
  }

  /** A subnet opened fully stays; opened up to the budget, it keeps that many of its busiest, and the others go to its
      tail; unopened, it goes whole to its supernode once it has three nodes. */
  ghost predicate Folded(o: Opened, filtering: bool, visible: map<string, int>, nodes: seq<Node>, members: set<int>,
                         cidr: string, m: map<string, string>, after: seq<Node>) {
    if cidr in o.full || (cidr in o.expanded && |members| <= o.budget) || (cidr !in o.expanded && |members| < 3) then
      forall i :: i in members ==> Stays(nodes, i, m, after)
    else if cidr in o.expanded then
      exists busiest :: BusiestStay(o, filtering, visible, nodes, members, cidr, m, after, busiest)
    else forall i :: i in members ==> Goes(nodes, i, m, after, cidr)
  }

  ghost predicate BusiestStay(o: Opened, filtering: bool, visible: map<string, int>, nodes: seq<Node>,
                              members: set<int>, cidr: string, m: map<string, string>, after: seq<Node>,
                              busiest: set<int>) {
    && busiest <= members && |busiest| == o.budget
    && (forall i :: i in busiest ==> Stays(nodes, i, m, after))
    && (forall i :: i in members - busiest ==> Goes(nodes, i, m, after, cidr + "+"))
    && (forall i, j :: i in busiest && j in members - busiest ==>
          0 <= i < |nodes| && 0 <= j < |nodes|
            && Busy(filtering, visible, nodes[i]) >= Busy(filtering, visible, nodes[j]))
  }

  /** The level `p` has taken the nodes to `after`. */
  ghost predicate Led(o: Opened, filtering: bool, b0: Books, kept: seq<Node>, keyOf: Node -> string,
                      overrides: set<string>, done: set<string>, p: Progress, after: seq<Node>) {
    && LevelDone(o, filtering, b0, kept, keyOf, overrides, done, p) && AllShown(b0, kept)
    && AllShown(p.books, after) && after == p.supers + Stay(kept, p.gone, |kept|)
  }

  lemma StayingStays(o: Opened, filtering: bool, b0: Books, kept: seq<Node>, keyOf: Node -> string,
                     overrides: set<string>, done: set<string>, p: Progress, after: seq<Node>, i: int)
    requires Led(o, filtering, b0, kept, keyOf, overrides, done, p, after) && 0 <= i < |kept| && i !in p.gone
    ensures Stays(kept, i, p.books.hostToSuper, after)
  {
    hide LevelDone, Stay;
    StayIs(kept, p.gone, |kept|);
    assert kept[i] in Stay(kept, p.gone, |kept|);
  }

  lemma GoneGoes(o: Opened, filtering: bool, b0: Books, kept: seq<Node>, keyOf: Node -> string, overrides: set<string>,
                 done: set<string>, p: Progress, after: seq<Node>, i: int, to: string)
    requires Led(o, filtering, b0, kept, keyOf, overrides, done, p, after) && i in p.gone
    requires GoesTo(kept, i, to, p.books.hostToSuper)
    ensures Goes(kept, i, p.books.hostToSuper, after, to)
  {
    hide LoadsBalance, SupersOk, Untouched, Decided, Stay;
    var k :| 0 <= k < |p.supers| && p.supers[k].id == to;
    assert after[k] == p.supers[k];
    forall n | n in after ensures n.id != kept[i].id {
      var j :| 0 <= j < |after| && after[j] == n;
      assert after[j].id !in p.books.hostToSuper;
    }
  }

  lemma GroupIsFolded(o: Opened, filtering: bool, b0: Books, kept: seq<Node>, keyOf: Node -> string,
                      overrides: set<string>, done: set<string>, p: Progress, after: seq<Node>, cidr: string)
    requires Led(o, filtering, b0, kept, keyOf, overrides, done, p, after) && cidr != ""
    ensures Folded(o, filtering, b0.visible, kept, Group(kept, keyOf, overrides, cidr), cidr, p.books.hostToSuper,
      after)
  {
    var members := Group(kept, keyOf, overrides, cidr);
    if members == {} {
      NoneFolded(o, filtering, b0.visible, kept, cidr, p.books.hostToSuper, after);
    } else {
      DecidedGroup(o, filtering, b0, kept, keyOf, overrides, done, p, cidr);
      MembersInRange(kept, keyOf, overrides, cidr);
      hide *;
      forall i | i in members && i !in p.gone ensures Stays(kept, i, p.books.hostToSuper, after) {
        StayingStays(o, filtering, b0, kept, keyOf, overrides, done, p, after, i);
      }
      forall i, to | i in members && i in p.gone && GoesTo(kept, i, to, p.books.hostToSuper)
        ensures Goes(kept, i, p.books.hostToSuper, after, to)
      {
        GoneGoes(o, filtering, b0, kept, keyOf, overrides, done, p, after, i, to);
      }
      DecidedIsFolded(o, filtering, b0.visible, kept, members, cidr, p, after);
    }
  }

  lemma DecidedIsFolded(o: Opened, filtering: bool, visible: map<string, int>, kept: seq<Node>, members: set<int>,
                        cidr: string, p: Progress, after: seq<Node>)
    requires GroupDecided(o, filtering, visible, kept, members, cidr, p.gone, p.books.hostToSuper)
    requires forall i :: i in members ==> 0 <= i < |kept|
    requires forall i :: i in members && i !in p.gone ==> Stays(kept, i, p.books.hostToSuper, after)
    requires forall i, to :: i in members && i in p.gone && GoesTo(kept, i, to, p.books.hostToSuper) ==>
      Goes(kept, i, p.books.hostToSuper, after, to)
    ensures Folded(o, filtering, visible, kept, members, cidr, p.books.hostToSuper, after)
  {
    hide Stays, Goes, Effective, Busy, GoesTo, BusiestStay;
    if cidr in o.expanded && cidr !in o.full && |members| > o.budget {
      BusiestAreKept(o, filtering, visible, kept, members, cidr, p, after);
    }
  }

  lemma NoneFolded(o: Opened, filtering: bool, visible: map<string, int>, kept: seq<Node>, cidr: string,
                   m: map<string, string>, after: seq<Node>)
    ensures Folded(o, filtering, visible, kept, {}, cidr, m, after)
  {
  }

  lemma DecidedGroup(o: Opened, filtering: bool, b0: Books, kept: seq<Node>, keyOf: Node -> string,
                     overrides: set<string>, done: set<string>, p: Progress, cidr: string)
    requires LevelDone(o, filtering, b0, kept, keyOf, overrides, done, p) && cidr != ""
    requires Group(kept, keyOf, overrides, cidr) != {}
    ensures GroupDecided(o, filtering, b0.visible, kept, Group(kept, keyOf, overrides, cidr), cidr, p.gone,
      p.books.hostToSuper)
  {
    hide InProgress, GroupDecided, IsGroup;
    var i :| i in Group(kept, keyOf, overrides, cidr);
    assert keyOf(kept[i]) in done;
  }

  lemma MembersInRange(kept: seq<Node>, keyOf: Node -> string, overrides: set<string>, cidr: string)
    ensures forall i :: i in Group(kept, keyOf, overrides, cidr) ==> 0 <= i < |kept|
  {
  }

  lemma BusiestAreKept(o: Opened, filtering: bool, visible: map<string, int>, kept: seq<Node>, members: set<int>,
                       cidr: string, p: Progress, after: seq<Node>)
    requires GroupDecided(o, filtering, visible, kept, members, cidr, p.gone, p.books.hostToSuper)
    requires cidr in o.expanded && cidr !in o.full && |members| > o.budget
    requires forall i :: i in members ==> 0 <= i < |kept|
    requires forall i :: i in members && i !in p.gone ==> Stays(kept, i, p.books.hostToSuper, after)
    requires forall i, to :: i in members && i in p.gone && GoesTo(kept, i, to, p.books.hostToSuper) ==>
      Goes(kept, i, p.books.hostToSuper, after, to)
    ensures BusiestStay(o, filtering, visible, kept, members, cidr, p.books.hostToSuper, after, members - p.gone)
  {
    hide Stays, Goes;
  }

  /** A node without a key, or that is a group, stays. */
  lemma KeylessStays(o: Opened, filtering: bool, b0: Books, kept: seq<Node>, keyOf: Node -> string,
                     overrides: set<string>, done: set<string>, p: Progress, after: seq<Node>, i: int)
    requires Led(o, filtering, b0, kept, keyOf, overrides, done, p, after) && 0 <= i < |kept|
    requires keyOf(kept[i]) == "" || IsGroup(overrides, kept[i])
    ensures Stays(kept, i, p.books.hostToSuper, after)
  {
    hide InProgress, GroupDecided, IsGroup, Stays, AllShown, Stay;
    StayingStays(o, filtering, b0, kept, keyOf, overrides, done, p, after, i);
  }

  // ---- subnets by name ----

  /** The hosts of the /24 "a.b.c", groups aside. */
  ghost function Hosts24(nodes: seq<Node>, overrides: set<string>, s: string): set<int> {
    set i | 0 <= i < |nodes| && !nodes[i].isGroup && nodes[i].id !in overrides && nodes[i].subnet == s
  }

  /** `w` is "a.b" where `s` is "a.b.c". */
  ghost predicate Under(s: string, w: string) { exists x :: s == w + "." + x && '.' !in x }

  ghost predicate Unopened(o: Opened, s: string) { s + ".0/24" !in o.expanded && s + ".0/24" !in o.full }

  /** The node stands for the unopened /24 `s`, or is a host of it. */
  ghost predicate Of24(o: Opened, b: Books, n: Node, s: string) {
    && Unopened(o, s)
    && if n.id in b.superHosts && b.superHosts[n.id] > 0 then n.id == s + ".0/24" || n.id == s + ".0/24+"
       else n.subnet == s
  }

  ghost predicate In16(o: Opened, b: Books, n: Node, w: string) { exists s :: Of24(o, b, n, s) && Under(s, w) }

  /** The nodes of the /16 "a.b", groups and what is open aside. */
  ghost function Nodes16(o: Opened, b: Books, nodes: seq<Node>, overrides: set<string>, w: string): set<int> {
    set i | 0 <= i < |nodes| && !nodes[i].isGroup && nodes[i].id !in overrides && In16(o, b, nodes[i], w)
  }

  /** Hosts into /24s. */
  ghost predicate FirstFolded(o: Opened, filtering: bool, visible: map<string, int>, hosts: seq<Node>,
                              overrides: set<string>, m: map<string, string>, mid: seq<Node>) {
    && (forall s :: s != "" ==>
          Folded(o, filtering, visible, hosts, Hosts24(hosts, overrides, s), s + ".0/24", m, mid))
    && (forall i :: 0 <= i < |hosts| && (hosts[i].isGroup || hosts[i].id in overrides || hosts[i].subnet == "") ==>
          Stays(hosts, i, m, mid))
  }

  /** /24s and loose hosts into /16s. */
  ghost predicate SecondFolded(o: Opened, filtering: bool, b: Books, mid: seq<Node>, overrides: set<string>,
                               m: map<string, string>, after: seq<Node>) {
    && (forall w :: Folded(o, filtering, b.visible, mid, Nodes16(o, b, mid, overrides, w), w + ".0.0/16", m, after))
    && (forall i :: 0 <= i < |mid| && Apart(o, b, mid[i], overrides) ==> Stays(mid, i, m, after))
  }

  /** A group, or in no /16, or kept out of it by being open. */
  ghost predicate Apart(o: Opened, b: Books, n: Node, overrides: set<string>) {
    n.isGroup || n.id in overrides || forall w :: !In16(o, b, n, w)
  }

  /** Where a level takes an identifier. */
  function Hop(m: map<string, string>, id: string): string { if id in m then m[id] else id }

  /** Aggregation happens above the threshold, at far zoom, or, once on, until well below the threshold: hosts fold into
      /24s, and then, if there are still too many nodes or the zoom is far, all that is not open folds into /16s. Every
      identifier remaps in one hop to where the two levels take it. */
  ghost predicate Aggregation(o: Opened, filtering: bool, visible: map<string, int>, hosts: seq<Node>,
                              overrides: set<string>, threshold: int, far: bool, wasAggregated: bool,
                              first: Books, mid: seq<Node>, b: Books, kept: seq<Node>,
                              hostToSuper: Option<map<string, string>>) {
    var final := if hostToSuper.Some? then hostToSuper.value else map[];
    if |hosts| > threshold || (far && |hosts| > 3) || (wasAggregated && |hosts| > threshold * 5 / 6) then
      && FirstFolded(o, filtering, visible, hosts, overrides, first.hostToSuper, mid)
      && (if |mid| > threshold || far then SecondFolded(o, filtering, first, mid, overrides, b.hostToSuper, kept)
          else kept == mid && b == first)
      && forall id :: Hop(final, id) == Hop(b.hostToSuper, Hop(first.hostToSuper, id))
    else kept == hosts && hostToSuper == None
  }

  /** Under aggregation no host of an unopened /24 of three hosts or more is shown: each remaps to the /24's supernode,
      or to its /16's, or, where the user opened the /16 up to the budget, to the tail of that. */
  ghost predicate NoneLeft(o: Opened, hosts: seq<Node>, overrides: set<string>, threshold: int, far: bool,
                           wasAggregated: bool, hostToSuper: Option<map<string, string>>, kept: seq<Node>) {
    |hosts| > threshold || (far && |hosts| > 3) || (wasAggregated && |hosts| > threshold * 5 / 6) ==>
      forall s :: s != "" && Unopened(o, s) && |Hosts24(hosts, overrides, s)| >= 3 ==>
        forall i :: i in Hosts24(hosts, overrides, s) ==> Inside(o, hosts[i].id, s, hostToSuper, kept)
  }

  ghost predicate Inside(o: Opened, id: string, s: string, hostToSuper: Option<map<string, string>>, kept: seq<Node>) {
    && (forall n :: n in kept ==> n.id != id)
    && hostToSuper.Some? && id in hostToSuper.value
    && var to := hostToSuper.value[id];
       && (exists n :: n in kept && n.id == to)
       && (|| to == s + ".0/24"
           || exists w :: Under(s, w)
                && (to == w + ".0.0/16" || (w + ".0.0/16" in o.expanded && to == w + ".0.0/16" + "+")))
  }
}
