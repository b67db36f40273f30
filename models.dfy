/** The records of graphapp/models.py and the query text that the Neo4j
    connection class builds. The driver itself is not modelled: a query is
    represented by the statement handed to the session, text plus parameters. */
module Models {
  import opened Wrappers
  import opened Text
  import opened Props

  /** A `GraphNode` row. `nodeId` is the graph-store id as text, null until mirrored. */
  datatype GraphNode = GraphNode(nodeLabel: string, name: string, properties: Props, nodeId: Option<string>)

  /** A `GraphRelationship` row; `source` and `target` are the primary keys of its endpoints. */
  datatype GraphRelationship =
    GraphRelationship(source: int, target: int, relType: string, properties: Props, relationshipId: Option<string>)

  /** `GraphNode(nodeLabel=..., name=..., properties=...)`: properties default to `{}`, `node_id` to null. */
  function NewNode(nodeLabel: string, name: string, properties: Props := []): (n: GraphNode)
    ensures n.nodeLabel == nodeLabel && n.name == name && n.properties == properties
    ensures n.nodeId == None
  {
    GraphNode(nodeLabel, name, properties, None)
  }

  /** `GraphRelationship(...)`: properties default to `{}`, `relationship_id` to null. */
  function NewRelationship(source: int, target: int, relType: string, properties: Props := []): (r: GraphRelationship)
    ensures r.source == source && r.target == target && r.relType == relType && r.properties == properties
    ensures r.relationshipId == None
  {
    GraphRelationship(source, target, relType, properties, None)
  }

  /** `GraphNode.__str__`: "nodeLabel: name". */
  function NodeString(n: GraphNode): (s: string)
    ensures |s| == |n.nodeLabel| + 2 + |n.name|
    ensures StartsWith(s, n.nodeLabel) && EndsWith(s, n.name) && OccursAt(s, ": ", |n.nodeLabel|)
  {
    n.nodeLabel + ": " + n.name
  }

  /** Splits a node's string form at its first ": ". */
  function SplitNodeString(s: string): Option<(string, string)> {
    var i := Find(s, ": ");
    if i == -1 then None else Some((s[..i], s[i + 2..]))
  }

  /** When the nodeLabel holds no ':', the string form gives back nodeLabel and name. */
  lemma NodeStringSplits(n: GraphNode)
    requires ':' !in n.nodeLabel
    ensures SplitNodeString(NodeString(n)) == Some((n.nodeLabel, n.name))
  {
    var s := NodeString(n);
    forall i | 0 <= i < |n.nodeLabel|
      ensures !OccursAt(s, ": ", i)
    {
      assert s[i] == n.nodeLabel[i];
    }
    assert Find(s, ": ") == |n.nodeLabel|;
    assert s[..|n.nodeLabel|] == n.nodeLabel;
    assert s[|n.nodeLabel| + 2..] == n.name;
  }

  /** `GraphRelationship.__str__`: "sourceName --[type]--> targetName", where the
      names are those of the endpoint rows. */
  function RelationshipString(r: GraphRelationship, source: GraphNode, target: GraphNode): (s: string)
    ensures |s| == |source.name| + 4 + |r.relType| + 5 + |target.name|
    ensures StartsWith(s, source.name) && EndsWith(s, target.name)
    ensures OccursAt(s, " --[", |source.name|) && OccursAt(s, r.relType, |source.name| + 4)
    ensures OccursAt(s, "]--> ", |source.name| + 4 + |r.relType|)
  {
    source.name + " --[" + r.relType + "]--> " + target.name
  }

  // ---------------------------------------------------------------------
  // Statements sent to the graph store

  datatype ParamValue = IntParam(i: int) | PropsParam(p: Props)

  type Params = map<string, ParamValue>

  /** What `session.run(query, parameters)` receives. */
  datatype Statement = Statement(text: string, params: Params)

  /** `run_query(query, parameters=None)`: an absent (or empty) parameter map
      is replaced by `{}` before the statement is run. */
  function RunQuery(query: string, parameters: Option<Params> := None): (st: Statement)
    ensures st.text == query
    ensures parameters == None ==> st.params == map[]
    ensures parameters.Some? ==> st.params == parameters.value
  {
    Statement(query, if parameters.Some? && parameters.value != map[] then parameters.value else map[])
  }

  const CreateNodePrefix := "CREATE (n:"
  const CreateNodeSuffix := " $props) RETURN n"

  /** The nodeLabel is interpolated verbatim between the fixed prefix and suffix. */
  function CreateNodeText(nodeLabel: string): (q: string)
    ensures |q| == |CreateNodePrefix| + |nodeLabel| + |CreateNodeSuffix|
    ensures StartsWith(q, CreateNodePrefix) && EndsWith(q, CreateNodeSuffix)
    ensures q[|CreateNodePrefix|..|q| - |CreateNodeSuffix|] == nodeLabel
  {
    CreateNodePrefix + nodeLabel + CreateNodeSuffix
  }

  /** Reads the nodeLabel back out of a create-node query text. */
  function CreateNodeLabel(q: string): Option<string> {
    if |CreateNodePrefix| + |CreateNodeSuffix| <= |q| && StartsWith(q, CreateNodePrefix) && EndsWith(q, CreateNodeSuffix)
    then Some(q[|CreateNodePrefix|..|q| - |CreateNodeSuffix|])
    else None
  }

  /** `create_node(nodeLabel, properties)`: the statement's parameters are exactly
      `{"props": properties}`, and the nodeLabel can be read back from its text. */
  function CreateNode(nodeLabel: string, properties: Props): (st: Statement)
    ensures st.params.Keys == {"props"} && st.params["props"] == PropsParam(properties)
    ensures CreateNodeLabel(st.text) == Some(nodeLabel)
  {
    RunQuery(CreateNodeText(nodeLabel), Some(map["props" := PropsParam(properties)]))
  }

  /** A text is a create-node query exactly when it is the text built for some nodeLabel. */
  lemma CreateNodeTextInverse(q: string, nodeLabel: string)
    ensures CreateNodeLabel(q) == Some(nodeLabel) <==> q == CreateNodeText(nodeLabel)
  {
  }

  const CreateRelationshipPrefix :=
    "MATCH (a), (b) WHERE id(a) = $start_id AND id(b) = $end_id CREATE (a)-[r:"
  const CreateRelationshipSuffix := " $props]->(b) RETURN r"

  /** The two endpoints are matched by internal id through bound parameters;
      the relationship type is interpolated verbatim. */
  function CreateRelationshipText(relType: string): (q: string)
    ensures |q| == |CreateRelationshipPrefix| + |relType| + |CreateRelationshipSuffix|
    ensures StartsWith(q, CreateRelationshipPrefix) && EndsWith(q, CreateRelationshipSuffix)
    ensures q[|CreateRelationshipPrefix|..|q| - |CreateRelationshipSuffix|] == relType
  {
    CreateRelationshipPrefix + relType + CreateRelationshipSuffix
  }

  /** Reads the relationship type back out of a create-relationship query text. */
  function CreateRelationshipType(q: string): Option<string> {
    if |CreateRelationshipPrefix| + |CreateRelationshipSuffix| <= |q|
       && StartsWith(q, CreateRelationshipPrefix) && EndsWith(q, CreateRelationshipSuffix)
    then Some(q[|CreateRelationshipPrefix|..|q| - |CreateRelationshipSuffix|])
    else None
  }

  /** `create_relationship(start_id, end_id, rel_type, properties=None)`:
      parameters are exactly start_id, end_id and props, with props `{}` when
      properties is None or empty. */
  function CreateRelationship(startId: int, endId: int, relType: string, properties: Option<Props> := None): (st: Statement)
    ensures st.params.Keys == {"start_id", "end_id", "props"}
    ensures st.params["start_id"] == IntParam(startId) && st.params["end_id"] == IntParam(endId)
    ensures st.params["props"] == PropsParam(if properties.Some? then properties.value else [])
    ensures CreateRelationshipType(st.text) == Some(relType)
  {
    var params := map[
      "start_id" := IntParam(startId),
      "end_id" := IntParam(endId),
      "props" := PropsParam(if properties.Some? && properties.value != [] then properties.value else [])];
    RunQuery(CreateRelationshipText(relType), Some(params))
  }

  /** A text is a create-relationship query exactly when it is the text built for some type. */
  lemma CreateRelationshipTextInverse(q: string, relType: string)
    ensures CreateRelationshipType(q) == Some(relType) <==> q == CreateRelationshipText(relType)
  {
  }

  /** `get_all_nodes()` and `get_all_relationships()`: fixed texts, no parameters. */
  function GetAllNodes(): (st: Statement)
    ensures st.text == "MATCH (n) RETURN n" && st.params == map[]
  {
    RunQuery("MATCH (n) RETURN n")
  }

  function GetAllRelationships(): (st: Statement)
    ensures st.text == "MATCH ()-[r]->() RETURN r" && st.params == map[]
  {
    RunQuery("MATCH ()-[r]->() RETURN r")
  }
}
