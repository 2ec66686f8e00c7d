/** Connected-component labels of the concept graph. */
module Communities {
  import opened Base
  import opened UnionFind

  type Edge = (Uuid, Uuid)

  // ---- The graph ------------------------------------------------------------

  /** The neighbour list of `u`: one entry per edge end, in edge order, so a repeated edge
      counts again and a self-loop counts twice. */
  function Neighbours(edges: seq<Edge>, u: Uuid): (ns: seq<Uuid>) {
    if edges == [] then []
    else
      var (s, d) := edges[|edges| - 1];
      Neighbours(edges[..|edges| - 1], u)
      + (if s == u then [d] else [])
      + (if d == u then [s] else [])
  }

  ghost predicate Adjacent(edges: seq<Edge>, u: Uuid, v: Uuid) {
    (u, v) in edges || (v, u) in edges
  }

  lemma {:induction false} NeighboursAreAdjacent(edges: seq<Edge>, u: Uuid, v: Uuid)
    ensures v in Neighbours(edges, u) <==> Adjacent(edges, u, v)
  {
    if edges == [] {
    } else {
      var front, last := edges[..|edges| - 1], edges[|edges| - 1];
      NeighboursAreAdjacent(front, u, v);
      assert edges == front + [last];
      assert forall e :: e in edges <==> e in front || e == last;
    }
  }

  /** `path` walks from `a` to `b` along undirected edges, through listed nodes only. */
  ghost predicate IsPath(nodes: seq<Uuid>, edges: seq<Edge>, path: seq<Uuid>, a: Uuid, b: Uuid) {
    && path != [] && path[0] == a && path[|path| - 1] == b
    && (forall k :: 0 <= k < |path| ==> path[k] in nodes)
    && (forall k :: 0 <= k < |path| - 1 ==> Adjacent(edges, path[k], path[k + 1]))
  }

  ghost predicate Connected(nodes: seq<Uuid>, edges: seq<Edge>, a: Uuid, b: Uuid) {
    exists path :: IsPath(nodes, edges, path, a, b)
  }

  lemma ConnectedReflexive(nodes: seq<Uuid>, edges: seq<Edge>, a: Uuid)
    requires a in nodes
    ensures Connected(nodes, edges, a, a)
  {
    assert IsPath(nodes, edges, [a], a, a);
  }

  lemma ConnectedAcross(nodes: seq<Uuid>, edges: seq<Edge>, a: Uuid, u: Uuid, v: Uuid, b: Uuid)
    requires Connected(nodes, edges, a, u) && Adjacent(edges, u, v) && Connected(nodes, edges, v, b)
    ensures Connected(nodes, edges, a, b)
  {
    var p :| IsPath(nodes, edges, p, a, u);
    var q :| IsPath(nodes, edges, q, v, b);
    assert IsPath(nodes, edges, p + q, a, b);
  }

  // ---- adjacency --------------------------------------------------------------

  /** The node list together with every edge endpoint, listed or not. */
  ghost predicate IsAdjacency(nodes: seq<Uuid>, edges: seq<Edge>, adj: map<Uuid, seq<Uuid>>) {
    && (forall u :: u in adj <==> u in nodes || exists v :: Adjacent(edges, u, v))
    && (forall u :: u in adj ==> adj[u] == Neighbours(edges, u))
  }

  method Adjacency(nodes: seq<Uuid>, edges: seq<Edge>) returns (adj: map<Uuid, seq<Uuid>>)
    ensures IsAdjacency(nodes, edges, adj)
  {
    adj := NoNeighbours(nodes);
    for k := 0 to |edges|
      invariant IsAdjacency(nodes, edges[..k], adj)
    {
      var before := adj;
      adj := AddEdge(adj, edges[k]);
      AdjacencyStep(nodes, edges[..k], edges[k], before, adj);
      assert edges[..k + 1] == edges[..k] + [edges[k]];
    }
    assert edges[..|edges|] == edges;
  }

  /** The first loop: an empty entry for every listed node. */
  method NoNeighbours(nodes: seq<Uuid>) returns (adj: map<Uuid, seq<Uuid>>)
    ensures forall u :: u in adj <==> u in nodes
    ensures forall u :: u in adj ==> adj[u] == []
  {
    adj := map[];
    for k := 0 to |nodes|
      invariant forall u :: u in adj <==> u in nodes[..k]
      invariant forall u :: u in adj ==> adj[u] == []
    {
      adj := Touch(adj, nodes[k]);
    }
    assert nodes[..|nodes|] == nodes;
  }

  /** What edge `e` adds to the list of `u`. */
  function More(e: Edge, u: Uuid): seq<Uuid> {
    (if e.0 == u then [e.1] else []) + (if e.1 == u then [e.0] else [])
  }

  /** The body of the second loop: each end becomes a neighbour of the other. */
  method AddEdge(before: map<Uuid, seq<Uuid>>, e: Edge) returns (adj: map<Uuid, seq<Uuid>>)
    ensures adj.Keys == before.Keys + {e.0, e.1}
    ensures forall u :: u in adj ==>
      adj[u] == (if u in before then before[u] else []) + More(e, u)
  {
    var (s, d) := e;
    adj := Touch(before, s);
    adj := adj[s := adj[s] + [d]];
    adj := Touch(adj, d);
    adj := adj[d := adj[d] + [s]];
  }

  /** The entry of `u`, created empty when it is missing. */
  function Touch(adj: map<Uuid, seq<Uuid>>, u: Uuid): (r: map<Uuid, seq<Uuid>>) {
    if u in adj then adj else adj[u := []]
  }

  lemma NeighboursStep(edges: seq<Edge>, e: Edge, u: Uuid)
    ensures Neighbours(edges + [e], u) == Neighbours(edges, u) + More(e, u)
  {
    assert (edges + [e])[..|edges|] == edges;
    ConcatAssociates(Neighbours(edges, u), if e.0 == u then [e.1] else [], if e.1 == u then [e.0] else []);
  }

  lemma AdjacentStep(edges: seq<Edge>, e: Edge, u: Uuid, v: Uuid)
    ensures Adjacent(edges + [e], u, v) <==> Adjacent(edges, u, v) || e == (u, v) || e == (v, u)
  {
  }

  /** A node without an entry has no neighbours yet. */
  lemma MissingHasNone(nodes: seq<Uuid>, edges: seq<Edge>, adj: map<Uuid, seq<Uuid>>, u: Uuid)
    requires IsAdjacency(nodes, edges, adj) && u !in adj
    ensures Neighbours(edges, u) == []
  {
    if Neighbours(edges, u) != [] {
      NeighboursAreAdjacent(edges, u, Neighbours(edges, u)[0]);
    }
  }

  lemma ListedStep(nodes: seq<Uuid>, edges: seq<Edge>, e: Edge, before: map<Uuid, seq<Uuid>>, u: Uuid)
    requires IsAdjacency(nodes, edges, before)
    ensures (u in before || u in {e.0, e.1}) <==> (u in nodes || exists v :: Adjacent(edges + [e], u, v))
  {
    AdjacentStep(edges, e, e.0, e.1);
    AdjacentStep(edges, e, e.1, e.0);
    if v :| Adjacent(edges, u, v) {
      AdjacentStep(edges, e, u, v);
    }
    if v :| Adjacent(edges + [e], u, v) {
      AdjacentStep(edges, e, u, v);
    }
  }

  lemma EntryStep(nodes: seq<Uuid>, edges: seq<Edge>, e: Edge, before: map<Uuid, seq<Uuid>>, u: Uuid)
    requires IsAdjacency(nodes, edges, before)
    ensures Neighbours(edges + [e], u) == (if u in before then before[u] else []) + More(e, u)
  {
    NeighboursStep(edges, e, u);
    if u !in before {
      MissingHasNone(nodes, edges, before, u);
    }
  }

  lemma AdjacencyStep(nodes: seq<Uuid>, edges: seq<Edge>, e: Edge,
                      before: map<Uuid, seq<Uuid>>, after: map<Uuid, seq<Uuid>>)
    requires IsAdjacency(nodes, edges, before) && after.Keys == before.Keys + {e.0, e.1}
    requires forall u :: u in after ==> after[u] == (if u in before then before[u] else []) + More(e, u)
    ensures IsAdjacency(nodes, edges + [e], after)
  {
    forall u | u in after ensures after[u] == Neighbours(edges + [e], u) {
      EntryStep(nodes, edges, e, before, u);
    }
    forall u ensures u in after <==> u in nodes || exists v :: Adjacent(edges + [e], u, v) {
      ListedStep(nodes, edges, e, before, u);
    }
  }

  // ---- community_labels ---------------------------------------------------------

  /** Only connected nodes share a class. */
  ghost predicate Sound(nodes: seq<Uuid>, edges: seq<Edge>, cls: seq<nat>) {
    && |cls| == |nodes|
    && (forall i, j :: 0 <= i < |nodes| && 0 <= j < |nodes| && cls[i] == cls[j]
          ==> Connected(nodes, edges, nodes[i], nodes[j]))
  }

  /** `index` maps every listed id to a position holding it. */
  ghost predicate IsIndex(nodes: seq<Uuid>, index: map<Uuid, nat>) {
    && (forall u :: u in index <==> u in nodes)
    && (forall u :: u in index ==> index[u] < |nodes| && nodes[index[u]] == u)
  }

  /** The processed entries of `u`'s neighbour list sit in `u`'s class. */
  ghost predicate Joined(cls: seq<nat>, index: map<Uuid, nat>, u: Uuid, vs: seq<Uuid>) {
    u in index && index[u] < |cls| ==>
      forall v :: v in vs && v in index && index[v] < |cls| ==> cls[index[u]] == cls[index[v]]
  }

  ghost predicate AllJoined(cls: seq<nat>, index: map<Uuid, nat>, adj: map<Uuid, seq<Uuid>>, done: set<Uuid>) {
    forall u :: u in done && u in adj ==> Joined(cls, index, u, adj[u])
  }

  lemma MergeKeepsSound(nodes: seq<Uuid>, edges: seq<Edge>, cls: seq<nat>, a: nat, b: nat)
    requires Sound(nodes, edges, cls) && a < |nodes| && b < |nodes|
    requires Adjacent(edges, nodes[a], nodes[b])
    ensures Sound(nodes, edges, Merge(cls, cls[a], cls[b]))
  {
    var m := Merge(cls, cls[a], cls[b]);
    forall i, j | 0 <= i < |nodes| && 0 <= j < |nodes| && m[i] == m[j]
      ensures Connected(nodes, edges, nodes[i], nodes[j])
    {
      if cls[i] == cls[a] && cls[j] == cls[b] {
        ConnectedAcross(nodes, edges, nodes[i], nodes[a], nodes[b], nodes[j]);
      } else if cls[i] == cls[b] && cls[j] == cls[a] {
        ConnectedAcross(nodes, edges, nodes[i], nodes[b], nodes[a], nodes[j]);
      }
    }
  }

  /** Once every adjacent listed pair shares a class, so does every connected pair. */
  lemma {:induction false} PathStaysInClass(nodes: seq<Uuid>, edges: seq<Edge>, cls: seq<nat>,
                                            index: map<Uuid, nat>, path: seq<Uuid>, a: Uuid, b: Uuid)
    requires IsIndex(nodes, index) && |cls| == |nodes|
    requires forall u, v :: u in nodes && v in nodes && Adjacent(edges, u, v)
               ==> cls[index[u]] == cls[index[v]]
    requires IsPath(nodes, edges, path, a, b)
    ensures cls[index[a]] == cls[index[b]]
    decreases |path|
  {
    if |path| > 1 {
      assert Adjacent(edges, path[0], path[1]);
      assert IsPath(nodes, edges, path[1..], path[1], b);
      PathStaysInClass(nodes, edges, cls, index, path[1..], path[1], b);
    }
  }

  ghost predicate IsUsed(labels: map<Uuid, nat>, c: nat) {
    exists u :: u in labels && labels[u] == c
  }

  /** What the caller gets: labels name exactly the components, with no gaps. */
  ghost predicate IsLabelling(nodes: seq<Uuid>, edges: seq<Edge>, labels: map<Uuid, nat>, count: nat) {
    && (forall u :: u in labels <==> u in nodes)
    && (forall u, v :: u in labels && v in labels
          ==> (labels[u] == labels[v] <==> Connected(nodes, edges, u, v)))
    && (forall u :: u in labels ==> labels[u] < count)
    && (forall c :: 0 <= c < count ==> IsUsed(labels, c))
  }

  /** The final classes of the forest are the connected components. */
  ghost predicate IsPartition(nodes: seq<Uuid>, edges: seq<Edge>, cls: seq<nat>, index: map<Uuid, nat>) {
    && IsIndex(nodes, index) && |cls| == |nodes|
    && forall u, v :: u in nodes && v in nodes
         ==> (cls[index[u]] == cls[index[v]] <==> Connected(nodes, edges, u, v))
  }

  lemma ClassesAreComponents(nodes: seq<Uuid>, edges: seq<Edge>, adj: map<Uuid, seq<Uuid>>,
                             index: map<Uuid, nat>, cls: seq<nat>)
    requires IsAdjacency(nodes, edges, adj) && IsIndex(nodes, index) && Sound(nodes, edges, cls)
    requires AllJoined(cls, index, adj, adj.Keys)
    ensures IsPartition(nodes, edges, cls, index)
  {
    forall u, v | u in nodes && v in nodes && Adjacent(edges, u, v)
      ensures cls[index[u]] == cls[index[v]]
    {
      NeighboursAreAdjacent(edges, u, v);
      assert Joined(cls, index, u, adj[u]);
    }
    forall u, v | u in nodes && v in nodes && Connected(nodes, edges, u, v)
      ensures cls[index[u]] == cls[index[v]]
    {
      var path :| IsPath(nodes, edges, path, u, v);
      PathStaysInClass(nodes, edges, cls, index, path, u, v);
    }
  }

  /** Later merges never separate what is already joined. */
  ghost predicate Coarser(fine: seq<nat>, coarse: seq<nat>) {
    && |fine| == |coarse|
    && forall i, j :: 0 <= i < |fine| && 0 <= j < |fine| && fine[i] == fine[j] ==> coarse[i] == coarse[j]
  }

  lemma CoarserKeepsJoined(fine: seq<nat>, coarse: seq<nat>, index: map<Uuid, nat>,
                           adj: map<Uuid, seq<Uuid>>, done: set<Uuid>)
    requires Coarser(fine, coarse) && AllJoined(fine, index, adj, done)
    ensures AllJoined(coarse, index, adj, done)
  {
    forall u | u in done && u in adj ensures Joined(coarse, index, u, adj[u]) {
      assert Joined(fine, index, u, adj[u]);
    }
  }

  lemma MergeJoins(before: seq<nat>, cls: seq<nat>, index: map<Uuid, nat>, id: Uuid, ns: seq<Uuid>, k: nat)
    requires Coarser(before, cls) && k < |ns| && Joined(cls, index, id, ns[..k])
    requires id in index && index[id] < |cls| && ns[k] in index && index[ns[k]] < |cls|
    ensures Coarser(before, Merge(cls, cls[index[id]], cls[index[ns[k]]]))
    ensures Joined(Merge(cls, cls[index[id]], cls[index[ns[k]]]), index, id, ns[..k + 1])
  {
    assert ns[..k + 1] == ns[..k] + [ns[k]];
  }

  /** One entry of the inner loop. */
  method UniteEntry(parent: array<nat>, index: map<Uuid, nat>, id: Uuid, ns: seq<Uuid>, k: nat,
                    ghost nodes: seq<Uuid>, ghost edges: seq<Edge>, ghost before: seq<nat>, ghost cls: seq<nat>)
    returns (ghost cls': seq<nat>)
    requires IsIndex(nodes, index) && id in index && ns == Neighbours(edges, id) && k < |ns|
    requires Holds(parent, cls) && parent.Length == |nodes| && Sound(nodes, edges, cls)
    requires Coarser(before, cls) && Joined(cls, index, id, ns[..k])
    modifies parent
    ensures Holds(parent, cls') && Sound(nodes, edges, cls')
    ensures Coarser(before, cls') && Joined(cls', index, id, ns[..k + 1])
  {
    var n := ns[k];
    if n in index {
      NeighboursAreAdjacent(edges, id, n);
      MergeKeepsSound(nodes, edges, cls, index[id], index[n]);
      MergeJoins(before, cls, index, id, ns, k);
      Unite(parent, index[id], index[n], cls);
      cls' := Merge(cls, cls[index[id]], cls[index[n]]);
    } else {
      assert ns[..k + 1] == ns[..k] + [n];
      cls' := cls;
    }
  }

  /** The inner loop: unite `id` with each of its listed neighbours. */
  method UniteAll(parent: array<nat>, index: map<Uuid, nat>, id: Uuid, ns: seq<Uuid>,
                  ghost nodes: seq<Uuid>, ghost edges: seq<Edge>, ghost before: seq<nat>)
    returns (ghost cls: seq<nat>)
    requires IsIndex(nodes, index) && id in index && ns == Neighbours(edges, id)
    requires Holds(parent, before) && parent.Length == |nodes| && Sound(nodes, edges, before)
    modifies parent
    ensures Holds(parent, cls) && Sound(nodes, edges, cls) && Coarser(before, cls)
    ensures Joined(cls, index, id, ns)
  {
    cls := before;
    for k := 0 to |ns|
      invariant Holds(parent, cls) && Sound(nodes, edges, cls) && Coarser(before, cls)
      invariant Joined(cls, index, id, ns[..k])
    {
      cls := UniteEntry(parent, index, id, ns, k, nodes, edges, before, cls);
    }
    assert ns[..|ns|] == ns;
  }

  /** The first loop: walk the adjacency map in any order and unite along every entry. */
  method UniteEdges(parent: array<nat>, index: map<Uuid, nat>, adj: map<Uuid, seq<Uuid>>,
                    ghost nodes: seq<Uuid>, ghost edges: seq<Edge>, ghost start: seq<nat>)
    returns (ghost cls: seq<nat>)
    requires IsIndex(nodes, index) && IsAdjacency(nodes, edges, adj)
    requires Holds(parent, start) && parent.Length == |nodes| && Sound(nodes, edges, start)
    modifies parent
    ensures Holds(parent, cls) && Sound(nodes, edges, cls)
    ensures AllJoined(cls, index, adj, adj.Keys)
  {
    cls := start;
    var todo := adj.Keys;
    while todo != {}
      invariant todo <= adj.Keys
      invariant Holds(parent, cls) && Sound(nodes, edges, cls)
      invariant AllJoined(cls, index, adj, adj.Keys - todo)
      decreases todo
    {
      var id :| id in todo;
      todo := todo - {id};
      if id in index {
        ghost var before := cls;
        cls := UniteAll(parent, index, id, adj[id], nodes, edges, before);
        CoarserKeepsJoined(before, cls, index, adj, adj.Keys - todo - {id});
      }
    }
  }

  lemma SingletonsAreSound(nodes: seq<Uuid>, edges: seq<Edge>)
    ensures Sound(nodes, edges, seq(|nodes|, i => i))
  {
    forall i | 0 <= i < |nodes| ensures Connected(nodes, edges, nodes[i], nodes[i]) {
      ConnectedReflexive(nodes, edges, nodes[i]);
    }
  }

  /** Every step of `community_labels`; the `:|` loops stand for the arbitrary order in
      which a hash map is walked. */
  method CommunityLabels(nodes: seq<Uuid>, edges: seq<Edge>) returns (labels: map<Uuid, nat>, count: nat)
    ensures IsLabelling(nodes, edges, labels, count)
  {
    var adj := Adjacency(nodes, edges);
    var index := IndexOf(nodes);
    var parent := Singletons(|nodes|);
    SingletonsAreSound(nodes, edges);
    ghost var cls := UniteEdges(parent, index, adj, nodes, edges, seq(|nodes|, i => i));
    ClassesAreComponents(nodes, edges, adj, index, cls);
    labels, count := NumberRoots(parent, index, cls);
    NumberingIsLabelling(nodes, edges, index, cls, labels, count);
  }

  lemma NumberingIsLabelling(nodes: seq<Uuid>, edges: seq<Edge>, index: map<Uuid, nat>, cls: seq<nat>,
                             labels: map<Uuid, nat>, count: nat)
    requires IsPartition(nodes, edges, cls, index)
    requires IsNumbering(index, cls, labels, count) && labels.Keys == index.Keys
    ensures IsLabelling(nodes, edges, labels, count)
  {
    forall u, v | u in labels && v in labels
      ensures labels[u] == labels[v] <==> Connected(nodes, edges, u, v)
    {
      assert u in nodes && v in nodes;
    }
  }

  method IndexOf(nodes: seq<Uuid>) returns (index: map<Uuid, nat>)
    ensures IsIndex(nodes, index)
  {
    index := map[];
    for k := 0 to |nodes|
      invariant IsIndex(nodes[..k], index)
    {
      assert nodes[..k + 1] == nodes[..k] + [nodes[k]];
      index := index[nodes[k] := k];
    }
    assert nodes[..|nodes|] == nodes;
  }

  /** Labels tell classes apart and use every number below `count`. */
  ghost predicate IsNumbering(index: map<Uuid, nat>, cls: seq<nat>, labels: map<Uuid, nat>, count: nat) {
    && labels.Keys <= index.Keys
    && (forall u :: u in labels ==> index[u] < |cls| && labels[u] < count)
    && (forall u, v :: u in labels && v in labels
          ==> (labels[u] == labels[v] <==> cls[index[u]] == cls[index[v]]))
    && (forall c :: 0 <= c < count ==> IsUsed(labels, c))
  }

  /** `roots` remembers which number each met root was given, `owner` which id met it first. */
  ghost predicate Remembers(roots: map<nat, nat>, owner: seq<Uuid>, index: map<Uuid, nat>, cls: seq<nat>,
                            labels: map<Uuid, nat>) {
    && |owner| == |roots|
    && (forall u :: u in labels ==> u in index && index[u] < |cls|)
    && (forall u :: u in labels ==> cls[index[u]] in roots && labels[u] == roots[cls[index[u]]])
    && (forall c :: 0 <= c < |owner| ==> owner[c] in labels && labels[owner[c]] == c)
    && (forall r :: r in roots ==> roots[r] < |owner| && cls[index[owner[roots[r]]]] == r)
  }

  lemma RememberStep(roots: map<nat, nat>, owner: seq<Uuid>, index: map<Uuid, nat>, cls: seq<nat>,
                     labels: map<Uuid, nat>, id: Uuid)
    requires Remembers(roots, owner, index, cls, labels)
    requires id in index && index[id] < |cls| && id !in labels
    ensures cls[index[id]] in roots
      ==> Remembers(roots, owner, index, cls, labels[id := roots[cls[index[id]]]])
    ensures cls[index[id]] !in roots
      ==> Remembers(roots[cls[index[id]] := |roots|], owner + [id], index, cls, labels[id := |roots|])
  {
  }

  lemma RemembersNumbers(roots: map<nat, nat>, owner: seq<Uuid>, index: map<Uuid, nat>, cls: seq<nat>,
                         labels: map<Uuid, nat>)
    requires Remembers(roots, owner, index, cls, labels)
    ensures IsNumbering(index, cls, labels, |roots|)
  {
    forall c | 0 <= c < |roots| ensures IsUsed(labels, c) {
      assert labels[owner[c]] == c;
    }
  }

  /** The second loop: roots are numbered in the order they are first met. */
  method NumberRoots(parent: array<nat>, index: map<Uuid, nat>, ghost cls: seq<nat>)
    returns (labels: map<Uuid, nat>, count: nat)
    requires Holds(parent, cls) && |cls| == parent.Length
    requires forall u :: u in index ==> index[u] < parent.Length
    modifies parent
    ensures labels.Keys == index.Keys && IsNumbering(index, cls, labels, count)
  {
    var roots: map<nat, nat> := map[];
    ghost var owner: seq<Uuid> := [];
    labels := map[];
    var todo := index.Keys;
    while todo != {}
      invariant todo <= index.Keys && labels.Keys == index.Keys - todo
      invariant Holds(parent, cls) && Remembers(roots, owner, index, cls, labels)
      decreases todo
    {
      var id :| id in todo;
      todo := todo - {id};
      var r := Find(parent, index[id], cls);
      var next := |roots|;
      RememberStep(roots, owner, index, cls, labels, id);
      if r !in roots {
        roots, owner := roots[r := next], owner + [id];
      }
      labels := labels[id := roots[r]];
    }
    count := |roots|;
    RemembersNumbers(roots, owner, index, cls, labels);
  }

  // ---- counting components ------------------------------------------------------

  ghost function Component(nodes: seq<Uuid>, edges: seq<Edge>, u: Uuid): set<Uuid> {
    set v | v in nodes && Connected(nodes, edges, u, v)
  }

  ghost function Components(nodes: seq<Uuid>, edges: seq<Edge>): set<set<Uuid>> {
    set u | u in nodes :: Component(nodes, edges, u)
  }

  lemma SameLabelSameComponent(nodes: seq<Uuid>, edges: seq<Edge>, labels: map<Uuid, nat>,
                               count: nat, u: Uuid, v: Uuid)
    requires IsLabelling(nodes, edges, labels, count) && u in labels && v in labels
    ensures labels[u] == labels[v] <==> Component(nodes, edges, u) == Component(nodes, edges, v)
  {
    if labels[u] == labels[v] {
      assert forall w :: w in nodes ==> (Connected(nodes, edges, u, w) <==> Connected(nodes, edges, v, w));
    } else {
      ConnectedReflexive(nodes, edges, v);
      assert v in Component(nodes, edges, v) && v !in Component(nodes, edges, u);
    }
  }

  ghost function ComponentsBelow(nodes: seq<Uuid>, edges: seq<Edge>, labels: map<Uuid, nat>, k: nat): set<set<Uuid>> {
    set u | u in labels && labels[u] < k :: Component(nodes, edges, u)
  }

  lemma OneMoreComponent(nodes: seq<Uuid>, edges: seq<Edge>, labels: map<Uuid, nat>, count: nat, k: nat)
    returns (last: set<Uuid>)
    requires IsLabelling(nodes, edges, labels, count) && k < count
    ensures last !in ComponentsBelow(nodes, edges, labels, k)
    ensures ComponentsBelow(nodes, edges, labels, k + 1) == ComponentsBelow(nodes, edges, labels, k) + {last}
  {
    assert IsUsed(labels, k);
    var w :| w in labels && labels[w] == k;
    last := Component(nodes, edges, w);
    forall u | u in labels
      ensures labels[u] == k <==> Component(nodes, edges, u) == last
    {
      SameLabelSameComponent(nodes, edges, labels, count, u, w);
    }
  }

  lemma {:induction false} CountComponentsBelow(nodes: seq<Uuid>, edges: seq<Edge>, labels: map<Uuid, nat>,
                                                count: nat, k: nat)
    requires IsLabelling(nodes, edges, labels, count) && k <= count
    ensures |ComponentsBelow(nodes, edges, labels, k)| == k
  {
    if k == 0 {
      assert ComponentsBelow(nodes, edges, labels, 0) == {};
    } else {
      CountComponentsBelow(nodes, edges, labels, count, k - 1);
      var last := OneMoreComponent(nodes, edges, labels, count, k - 1);
    }
  }

  /** The returned count is the number of connected components. */
  lemma CountIsComponents(nodes: seq<Uuid>, edges: seq<Edge>, labels: map<Uuid, nat>, count: nat)
    requires IsLabelling(nodes, edges, labels, count)
    ensures count == |Components(nodes, edges)|
  {
    CountComponentsBelow(nodes, edges, labels, count, count);
    assert Components(nodes, edges) == ComponentsBelow(nodes, edges, labels, count);
  }

  /** Two runs may number the components differently but agree on the partition and the count,
      so the hash-map order is invisible in both. */
  lemma LabellingsAgree(nodes: seq<Uuid>, edges: seq<Edge>, l1: map<Uuid, nat>, c1: nat,
                        l2: map<Uuid, nat>, c2: nat)
    requires IsLabelling(nodes, edges, l1, c1) && IsLabelling(nodes, edges, l2, c2)
    ensures c1 == c2 && l1.Keys == l2.Keys
    ensures forall u, v :: u in l1 && v in l1 ==> (l1[u] == l1[v] <==> l2[u] == l2[v])
  {
    CountIsComponents(nodes, edges, l1, c1);
    CountIsComponents(nodes, edges, l2, c2);
  }
}
