/** The per-node adjacency index of graph.Manager: node -> keys of its edges (graph/graph.go). */
module Adjacency {
  import opened GraphState

  function Incident(edges: map<string, EdgeState>, id: string): set<string> {
    set k | k in edges && Touches(edges[k], id)
  }

  /** The index lists for each node precisely the edges that touch it, and no node without edges. */
  ghost predicate Exact(index: map<string, set<string>>, edges: map<string, EdgeState>) {
    && (forall n {:trigger n in index} :: n in index ==> index[n] == Incident(edges, n) && index[n] != {})
    && (forall k, n {:trigger Touches(edges[k], n)} :: k in edges && Touches(edges[k], n) ==> n in index)
  }

  function Listed(index: map<string, set<string>>, node: string, key: string): map<string, set<string>> {
    index[node := (if node in index then index[node] else {}) + {key}]
  }

  function Unlisted(index: map<string, set<string>>, node: string, key: string): map<string, set<string>> {
    if node !in index then index
    else if index[node] - {key} == {} then index - {node}
    else index[node := index[node] - {key}]
  }

  /** Looking a node up in the index finds what a scan of all edges finds. */
  lemma LookupEqualsScan(index: map<string, set<string>>, edges: map<string, EdgeState>, node: string)
    requires Exact(index, edges)
    ensures (if node in index then index[node] else {}) == Incident(edges, node)
  {
  }

  lemma ListedTwiceIsExact(index: map<string, set<string>>, edges: map<string, EdgeState>, key: string, e: EdgeState)
    requires Exact(index, edges) && key !in edges
    ensures Exact(Listed(Listed(index, e.from, key), e.to, key), edges[key := e])
  {
    var edges', index' := edges[key := e], Listed(Listed(index, e.from, key), e.to, key);
    forall n | n in index' ensures index'[n] == Incident(edges', n) && index'[n] != {} {
      LookupEqualsScan(index, edges, n);
      assert Incident(edges', n) == Incident(edges, n) + (if Touches(e, n) then {key} else {});
    }
  }

  lemma UnlistedTwiceIsExact(index: map<string, set<string>>, edges: map<string, EdgeState>, key: string)
    requires Exact(index, edges) && key in edges
    ensures Exact(Unlisted(Unlisted(index, edges[key].from, key), edges[key].to, key), edges - {key})
  {
    var e := edges[key];
    var edges', index' := edges - {key}, Unlisted(Unlisted(index, e.from, key), e.to, key);
    forall n ensures Incident(edges', n) == Incident(edges, n) - {key} {
    }
    forall n | n in index' ensures index'[n] == Incident(edges', n) && index'[n] != {} {
      if !Touches(e, n) {
        assert key !in Incident(edges, n);
        assert index'[n] == index[n];
      }
    }
    forall k, n | k in edges' && Touches(edges'[k], n) ensures n in index' {
      assert Touches(edges[k], n) && k in Incident(edges', n);
    }
  }

  /** Only the keys and endpoints of the edges matter. */
  lemma ExactIgnoresCounters(index: map<string, set<string>>, edges: map<string, EdgeState>,
                             edges': map<string, EdgeState>)
    requires Exact(index, edges) && edges.Keys == edges'.Keys
    requires forall k :: k in edges ==> edges[k].from == edges'[k].from && edges[k].to == edges'[k].to
    ensures Exact(index, edges')
  {
    assert forall k, n :: k in edges' ==> Touches(edges'[k], n) == Touches(edges[k], n);
    forall n | n in index ensures index[n] == Incident(edges', n) {
      assert Incident(edges, n) == Incident(edges', n);
    }
  }
}
