/** The graph that `visualize_graph` assembles before any layout or plotting:
    which nodes it keeps, which edges it admits, and the marker size and hover
    text of every node. Colours, positions and the Plotly figure are not part
    of this model. */
module Visualize {
  import opened Text
  import opened Props
  import opened Models

  /** A node row as the queryset yields it: its primary key and its columns. */
  datatype NodeRow = NodeRow(id: int, node: GraphNode)

  /** A node of the networkx graph with the attributes `G.add_node` gives it. */
  datatype VisNode = VisNode(id: int, nodeLabel: string, name: string, properties: Props, hover: string)

  /** The attributes `G.add_edge` gives an ordered pair of nodes. */
  datatype VisEdge = VisEdge(relType: string, properties: Props, hover: string)

  /** A networkx `DiGraph`: nodes in insertion order, at most one edge per
      ordered pair (adding an existing edge again updates its attributes). */
  datatype Graph = Graph(nodes: seq<VisNode>, edges: map<(int, int), VisEdge>)

  /** A filter parameter filters unless it is 'all' or empty. */
  predicate FilterActive(f: string) {
    f != "all" && f != ""
  }

  // ---------------------------------------------------------------------
  // Hover text

  function PropertyLine(k: string, v: string): string {
    "<b>" + k + ":</b> " + v
  }

  function PropertyLines(p: Props): (lines: seq<string>)
    ensures |lines| == |p|
    ensures forall i :: 0 <= i < |p| ==> lines[i] == PropertyLine(p[i].0, p[i].1)
  {
    seq(|p|, i requires 0 <= i < |p| => PropertyLine(p[i].0, p[i].1))
  }

  /** `"<br>".join(f"<b>{k}:</b> {v}" for k, v in properties.items())`. */
  function FormatProperties(p: Props): string {
    Join(PropertyLines(p), "<br>")
  }

  /** The joined entries are empty exactly when there are no properties, and
      open with the first entry. */
  lemma FormatPropertiesEmpty(p: Props)
    ensures FormatProperties(p) == "" <==> |p| == 0
    ensures |p| > 0 ==> StartsWith(FormatProperties(p), PropertyLine(p[0].0, p[0].1))
  {
  }

  const PropertiesHeading := "<br><b>Properties:</b><br>"

  /** The `if formatted_props:` tail of a hover text. */
  function PropertiesSection(p: Props): string {
    var formatted := FormatProperties(p);
    if formatted != "" then PropertiesHeading + formatted else ""
  }

  /** The tail is present exactly when the record has properties. */
  lemma PropertiesSectionPresent(p: Props)
    ensures |p| == 0 ==> PropertiesSection(p) == ""
    ensures |p| > 0 ==> PropertiesSection(p) == PropertiesHeading + FormatProperties(p)
  {
  }

  function NodeHeader(nodeLabel: string, name: string): string {
    "<b>Label:</b> " + nodeLabel + "<br><b>Name:</b> " + name
  }

  /** A node's hover text. */
  function NodeHover(nodeLabel: string, name: string, p: Props): string {
    NodeHeader(nodeLabel, name) + PropertiesSection(p)
  }

  /** A node's hover text is its label and name, followed by the properties
      heading and entries exactly when it has properties. */
  lemma NodeHoverShape(nodeLabel: string, name: string, p: Props)
    ensures StartsWith(NodeHover(nodeLabel, name, p), NodeHeader(nodeLabel, name))
    ensures NodeHover(nodeLabel, name, p) == NodeHeader(nodeLabel, name) <==> |p| == 0
    ensures |p| > 0 ==>
      NodeHover(nodeLabel, name, p) == NodeHeader(nodeLabel, name) + PropertiesHeading + FormatProperties(p)
  {
  }

  /** An edge's hover text. */
  function EdgeHover(relType: string, p: Props): string {
    "<b>Type:</b> " + relType + PropertiesSection(p)
  }

  /** An edge's hover text is its type, followed by the properties exactly
      when it has any. */
  lemma EdgeHoverShape(relType: string, p: Props)
    ensures StartsWith(EdgeHover(relType, p), "<b>Type:</b> " + relType)
    ensures EdgeHover(relType, p) == "<b>Type:</b> " + relType <==> |p| == 0
    ensures |p| > 0 ==> EdgeHover(relType, p) == "<b>Type:</b> " + relType + PropertiesHeading + FormatProperties(p)
  {
  }

  // ---------------------------------------------------------------------
  // Filters (queryset `.filter`)

  /** `nodes.filter(label=l)`. */
  function NodesLabelled(rows: seq<NodeRow>, l: string): (r: seq<NodeRow>)
    ensures forall x :: x in r <==> x in rows && x.node.nodeLabel == l
  {
    if |rows| == 0 then []
    else
      var last := rows[|rows| - 1];
      NodesLabelled(rows[..|rows| - 1], l) + (if last.node.nodeLabel == l then [last] else [])
  }

  /** `relationships.filter(type=t)`. */
  function RelationshipsTyped(rels: seq<GraphRelationship>, t: string): (r: seq<GraphRelationship>)
    ensures forall x :: x in r <==> x in rels && x.relType == t
  {
    if |rels| == 0 then []
    else
      var last := rels[|rels| - 1];
      RelationshipsTyped(rels[..|rels| - 1], t) + (if last.relType == t then [last] else [])
  }

  function SelectedNodes(rows: seq<NodeRow>, nodeFilter: string): seq<NodeRow> {
    if FilterActive(nodeFilter) then NodesLabelled(rows, nodeFilter) else rows
  }

  function SelectedRelationships(rels: seq<GraphRelationship>, relFilter: string): seq<GraphRelationship> {
    if FilterActive(relFilter) then RelationshipsTyped(rels, relFilter) else rels
  }

  // ---------------------------------------------------------------------
  // The stages of the graph, each the result of one loop of views.py

  function ToVisNode(row: NodeRow): VisNode {
    VisNode(row.id, row.node.nodeLabel, row.node.name, row.node.properties,
            NodeHover(row.node.nodeLabel, row.node.name, row.node.properties))
  }

  /** The nodes added by the first loop, one per selected row, in order. */
  function VisNodes(rows: seq<NodeRow>): (vs: seq<VisNode>)
    ensures |vs| == |rows|
    ensures forall i :: 0 <= i < |rows| ==> vs[i] == ToVisNode(rows[i])
  {
    seq(|rows|, i requires 0 <= i < |rows| => ToVisNode(rows[i]))
  }

  /** Some relationship of `rels` starts or ends at `id`. */
  predicate Touches(rels: seq<GraphRelationship>, id: int) {
    exists r :: r in rels && (r.source == id || r.target == id)
  }

  /** Some relationship of `rels` goes from `u` to `v`. */
  predicate Joins(rels: seq<GraphRelationship>, u: int, v: int) {
    exists r :: r in rels && r.source == u && r.target == v
  }

  /** `related_node_ids`: every source and target of the given relationships. */
  function Endpoints(rels: seq<GraphRelationship>): (ids: set<int>)
    ensures forall id :: id in ids <==> Touches(rels, id)
  {
    if |rels| == 0 then {}
    else
      var init, last := rels[..|rels| - 1], rels[|rels| - 1];
      assert forall r :: r in rels <==> r in init || r == last;
      Endpoints(init) + {last.source, last.target}
  }

  /** The nodes left after `G.remove_node` of every node not in `keep`, in order. */
  function Pruned(vs: seq<VisNode>, keep: set<int>): (r: seq<VisNode>)
    ensures forall v :: v in r <==> v in vs && v.id in keep
  {
    if |vs| == 0 then []
    else
      var last := vs[|vs| - 1];
      Pruned(vs[..|vs| - 1], keep) + (if last.id in keep then [last] else [])
  }

  function NodeIds(vs: seq<VisNode>): set<int> {
    set v | v in vs :: v.id
  }

  function ToVisEdge(r: GraphRelationship): VisEdge {
    VisEdge(r.relType, r.properties, EdgeHover(r.relType, r.properties))
  }

  /** The edges of the last loop: a relationship becomes an edge only when both
      of its endpoints are in `present`; a later relationship between the same
      ordered pair replaces the attributes of an earlier one. */
  function EdgesAmong(rels: seq<GraphRelationship>, present: set<int>): (m: map<(int, int), VisEdge>)
    ensures forall e :: e in m <==> e.0 in present && e.1 in present && Joins(rels, e.0, e.1)
  {
    if |rels| == 0 then map[]
    else
      var init, last := rels[..|rels| - 1], rels[|rels| - 1];
      assert forall r :: r in rels <==> r in init || r == last;
      var m := EdgesAmong(init, present);
      if last.source in present && last.target in present then m[(last.source, last.target) := ToVisEdge(last)]
      else m
  }

  /** The relationship behind an edge is the last one between that ordered pair. */
  lemma {:induction false} EdgeFromLastRelationship(rels: seq<GraphRelationship>, present: set<int>, e: (int, int))
    returns (i: int)
    requires e in EdgesAmong(rels, present)
    ensures 0 <= i < |rels| && rels[i].source == e.0 && rels[i].target == e.1
    ensures EdgesAmong(rels, present)[e] == ToVisEdge(rels[i])
    ensures forall j :: i < j < |rels| ==> rels[j].source != e.0 || rels[j].target != e.1
  {
    var init, last := rels[..|rels| - 1], rels[|rels| - 1];
    var m := EdgesAmong(init, present);
    if last.source == e.0 && last.target == e.1 {
      i := |rels| - 1;
    } else {
      assert e in m;
      i := EdgeFromLastRelationship(init, present, e);
      assert rels[i] == init[i];
      forall j | i < j < |rels|
        ensures rels[j].source != e.0 || rels[j].target != e.1
      {
        if j < |rels| - 1 {
          assert rels[j] == init[j];
        }
      }
    }
  }

  /** The nodes `G` holds when the edges are added. */
  function GraphNodes(rows: seq<NodeRow>, rels: seq<GraphRelationship>, nodeFilter: string, relFilter: string): seq<VisNode> {
    var vs := VisNodes(SelectedNodes(rows, nodeFilter));
    if FilterActive(relFilter) then Pruned(vs, Endpoints(SelectedRelationships(rels, relFilter))) else vs
  }

  /** The graph `visualize_graph` assembles. */
  function AssembledGraph(rows: seq<NodeRow>, rels: seq<GraphRelationship>, nodeFilter: string, relFilter: string): Graph {
    var ns := GraphNodes(rows, rels, nodeFilter, relFilter);
    Graph(ns, EdgesAmong(SelectedRelationships(rels, relFilter), NodeIds(ns)))
  }

  /** Filtering as the view promises: with a node filter every node has that
      label; with a relationship filter every node is an endpoint of some
      relationship of that type; every edge joins two nodes of the graph and
      stands for a selected relationship. */
  lemma AssembledGraphFilters(rows: seq<NodeRow>, rels: seq<GraphRelationship>, nodeFilter: string, relFilter: string)
    ensures var g := AssembledGraph(rows, rels, nodeFilter, relFilter);
      && (FilterActive(nodeFilter) ==> forall v :: v in g.nodes ==> v.nodeLabel == nodeFilter)
      && (FilterActive(relFilter) ==> forall v :: v in g.nodes ==>
            exists r :: r in rels && r.relType == relFilter && (r.source == v.id || r.target == v.id))
      && (forall e :: e in g.edges ==> e.0 in NodeIds(g.nodes) && e.1 in NodeIds(g.nodes))
      && (forall e :: e in g.edges ==>
            exists r :: r in SelectedRelationships(rels, relFilter) && r.source == e.0 && r.target == e.1)
  {
  }

  /** No node is lost: a row that passes the label filter, and (with a
      relationship filter) is an endpoint of a selected relationship, is in
      the graph. */
  lemma AssembledGraphKeeps(rows: seq<NodeRow>, rels: seq<GraphRelationship>, nodeFilter: string, relFilter: string, row: NodeRow)
    requires row in rows
    requires FilterActive(nodeFilter) ==> row.node.nodeLabel == nodeFilter
    requires FilterActive(relFilter) ==>
      exists r :: r in rels && r.relType == relFilter && (r.source == row.id || r.target == row.id)
    ensures ToVisNode(row) in AssembledGraph(rows, rels, nodeFilter, relFilter).nodes
  {
  }

  /** `G.neighbors(u)` of a DiGraph: its successors. */
  function Successors(g: Graph, u: int): set<int> {
    set e | e in g.edges.Keys && e.0 == u :: e.1
  }

  /** `v` is a successor of `u` exactly when the graph has the edge `(u, v)`. */
  lemma SuccessorsAreEdges(g: Graph, u: int, v: int)
    ensures v in Successors(g, u) <==> (u, v) in g.edges
  {
  }

  /** A node's successors are the targets of the selected relationships out of
      it whose two endpoints both stayed in the graph. */
  lemma SuccessorsAreSurvivingTargets(rows: seq<NodeRow>, rels: seq<GraphRelationship>, nodeFilter: string,
                                      relFilter: string, u: int, v: int)
    ensures var g := AssembledGraph(rows, rels, nodeFilter, relFilter);
      v in Successors(g, u) <==>
        u in NodeIds(g.nodes) && v in NodeIds(g.nodes) && Joins(SelectedRelationships(rels, relFilter), u, v)
  {
    var g := AssembledGraph(rows, rels, nodeFilter, relFilter);
    SuccessorsAreEdges(g, u, v);
  }

  /** The first loop of `visualize_graph`: one graph node per selected row. */
  method AddNodes(nodes: seq<NodeRow>) returns (vs: seq<VisNode>)
    ensures vs == VisNodes(nodes)
  {
    vs := [];
    var i := 0;
    while i < |nodes|
      invariant 0 <= i <= |nodes|
      invariant |vs| == i && forall j :: 0 <= j < i ==> vs[j] == ToVisNode(nodes[j])
    {
      vs := vs + [ToVisNode(nodes[i])];
      i := i + 1;
    }
  }

  /** The `related_node_ids` loop. */
  method RelatedNodeIds(rels: seq<GraphRelationship>) returns (related: set<int>)
    ensures related == Endpoints(rels)
    ensures forall id :: id in related <==> Touches(rels, id)
  {
    related := {};
    var j := 0;
    while j < |rels|
      invariant 0 <= j <= |rels|
      invariant related == Endpoints(rels[..j])
    {
      assert rels[..j + 1][..j] == rels[..j];
      related := related + {rels[j].source, rels[j].target};
      j := j + 1;
    }
    assert rels[..|rels|] == rels;
  }

  /** The pruning loop: remove every node whose id is not in `keep`. */
  method RemoveUnrelated(vs: seq<VisNode>, keep: set<int>) returns (kept: seq<VisNode>)
    ensures kept == Pruned(vs, keep)
    ensures forall v :: v in kept <==> v in vs && v.id in keep
  {
    kept := [];
    var k := 0;
    while k < |vs|
      invariant 0 <= k <= |vs|
      invariant kept == Pruned(vs[..k], keep)
    {
      assert vs[..k + 1][..k] == vs[..k];
      if vs[k].id in keep {
        kept := kept + [vs[k]];
      }
      k := k + 1;
    }
    assert vs[..|vs|] == vs;
  }

  /** The edge loop: a relationship is added only when `G.has_node` holds for
      both of its endpoints. */
  method AddEdges(rels: seq<GraphRelationship>, present: set<int>) returns (edges: map<(int, int), VisEdge>)
    ensures edges == EdgesAmong(rels, present)
    ensures forall e :: e in edges <==> e.0 in present && e.1 in present && Joins(rels, e.0, e.1)
  {
    edges := map[];
    var m := 0;
    while m < |rels|
      invariant 0 <= m <= |rels|
      invariant edges == EdgesAmong(rels[..m], present)
    {
      assert rels[..m + 1][..m] == rels[..m];
      var r := rels[m];
      if r.source in present && r.target in present {
        edges := edges[(r.source, r.target) := ToVisEdge(r)];
      }
      m := m + 1;
    }
    assert rels[..|rels|] == rels;
  }

  /** The graph construction of `visualize_graph`, stage by stage. */
  method BuildGraph(rows: seq<NodeRow>, rels: seq<GraphRelationship>, nodeFilter: string, relFilter: string)
    returns (g: Graph)
    ensures g == AssembledGraph(rows, rels, nodeFilter, relFilter)
    ensures FilterActive(nodeFilter) ==> forall v :: v in g.nodes ==> v.nodeLabel == nodeFilter
    ensures FilterActive(relFilter) ==> forall v :: v in g.nodes ==>
      exists r :: r in rels && r.relType == relFilter && (r.source == v.id || r.target == v.id)
    ensures forall e :: e in g.edges ==> e.0 in NodeIds(g.nodes) && e.1 in NodeIds(g.nodes)
  {
    var nodes := SelectedNodes(rows, nodeFilter);
    var relationships := SelectedRelationships(rels, relFilter);
    var graphNodes := AddNodes(nodes);
    var related := RelatedNodeIds(relationships);
    if FilterActive(relFilter) {
      graphNodes := RemoveUnrelated(graphNodes, related);
    }
    var edges := AddEdges(relationships, NodeIds(graphNodes));
    g := Graph(graphNodes, edges);
    AssembledGraphFilters(rows, rels, nodeFilter, relFilter);
  }

  /** A node's marker size, `20 + connections * 5`, is 20 exactly when no edge
      leaves it. */
  lemma {:induction false} NodeSizeBaseline(g: Graph, u: int)
    ensures 20 + 5 * |Successors(g, u)| == 20 <==> forall e :: e in g.edges ==> e.0 != u
  {
    if exists e :: e in g.edges && e.0 == u {
      var e :| e in g.edges && e.0 == u;
      assert e.1 in Successors(g, u);
    } else {
      assert Successors(g, u) == {};
    }
  }

  /** The node loop before plotting: for each node of `G`, in order, its size,
      its text (the name), its hover text and its label. */
  method NodeMarkers(g: Graph) returns (sizes: seq<int>, texts: seq<string>, hovers: seq<string>, labels: seq<string>)
    ensures |sizes| == |texts| == |hovers| == |labels| == |g.nodes|
    ensures forall i :: 0 <= i < |g.nodes| ==>
      && sizes[i] == 20 + 5 * |Successors(g, g.nodes[i].id)|
      && texts[i] == g.nodes[i].name && hovers[i] == g.nodes[i].hover && labels[i] == g.nodes[i].nodeLabel
  {
    sizes, texts, hovers, labels := [], [], [], [];
    var i := 0;
    while i < |g.nodes|
      invariant 0 <= i <= |g.nodes|
      invariant |sizes| == |texts| == |hovers| == |labels| == i
      invariant forall j :: 0 <= j < i ==>
        && sizes[j] == 20 + 5 * |Successors(g, g.nodes[j].id)|
        && texts[j] == g.nodes[j].name && hovers[j] == g.nodes[j].hover && labels[j] == g.nodes[j].nodeLabel
    {
      var node := g.nodes[i];
      var connections := |Successors(g, node.id)|;
      sizes := sizes + [20 + connections * 5];
      texts := texts + [node.name];
      hovers := hovers + [node.hover];
      labels := labels + [node.nodeLabel];
      i := i + 1;
    }
  }
}
