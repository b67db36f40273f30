# MrGraphy core, modelled in Dafny

MrGraphy is a Django application. It keeps nodes and relationships in a
relational database and mirrors each new record into a Neo4j graph store. It
then draws the stored graph with networkx and Plotly. This project models the
logic that sits between the HTTP request and the two stores:

- **`add_node` and `add_relationship`** (`graphapp/views.py`, module `Views`).
  A view reads the `prop_key_<id>` / `prop_value_<id>` form fields into a
  property dict, inserts the relational row, and then makes one best-effort
  mirror call to the graph store inside a `try` that swallows every
  exception. It writes the graph id back only when the call returned a
  record, and it never rolls anything back. The relational store is the class
  `Store.RelationalStore`: maps from auto-increment keys to rows. The graph
  store's answer is a parameter (`Reply`). Each view returns the ordered list
  of its effects on the two stores.
- **The graph that `visualize_graph` assembles** (module `Visualize`). It
  applies the label and type filters, prunes nodes that no selected
  relationship touches, admits edges only between surviving nodes, and
  computes node marker sizes and hover texts.
- **The records and the Cypher statements** (`graphapp/models.py`, modules
  `Models` and `Store`). This covers record defaults, the `__str__` forms,
  the exact query text and parameter map of `create_node`,
  `create_relationship`, `get_all_nodes` and `get_all_relationships`, the
  `run_query` default, and the ORM cascade on delete.
- **`Neo4jLoggerMiddleware.__call__`** (`graphapp/middleware.py`, module
  `Middleware`). A log record in the session slot `neo4j_log` is consumed
  once. For an HTML page, a script carrying the record's operation and
  timestamp is spliced in before the first `</body>`.

Python's own operations are written out where the result depends on them:
- `str.find`, `in` on strings, `split('_')[-1]`, `sep.join`: module `Text`.
- `str(n)` and `int(s)`: module `Text`.
- Insertion-ordered dicts: module `Props`, because the hover text lists
  properties in insertion order.

Three behaviours of the code worth knowing:
- **`add_node` writes `name` into the stored properties.** `add_node` passes
  its `properties` dict to `GraphNode.objects.create` and then adds `name`
  to that same dict before the mirror call. On a successful mirror,
  `node.save()` therefore also stores `name` in the row's properties
  (`Views.StoredNode`).
- **Unmirrored endpoints fail inside the `try`.** In `add_relationship`, an
  endpoint whose `node_id` is null makes `int(None)` raise inside the `try`,
  so the graph call is not made and the row keeps a null `relationship_id`
  (`Views.RelationshipMirrorAttempted`).
- **The injection test is `body_pos > 0`.** A page whose first `</body>` is
  at index 0 gets no script (`Middleware.ProcessLog`).

## Model

| member | source | states |
|---|---|---|
| Text.Find | graphapp/middleware.py:48 | `str.find`: -1 exactly when the pattern occurs nowhere; otherwise an index where it occurs, with no occurrence before it |
| Text.FindFrom | graphapp/middleware.py:48 | the first occurrence at or after a start index, or -1 when there is none from there on |
| Text.AfterLast | graphapp/views.py:31 | `key.split('_')[-1]` is a suffix of the key that contains no `_`, and the character before it is `_` when it is not the whole key |
| Text.StartsWith | graphapp/views.py:30 | `key.startswith(prefix)`: the key is at least as long as the prefix and its first characters are the prefix (a definition; `Views.SuppliesAssigns` and `Views.FormPropertiesKeys` use it) |
| Text.Contains | graphapp/middleware.py:17 | `pat in s`: true exactly when the pattern occurs at some index of `s` |
| Text.Join | graphapp/views.py:146 | `"<br>".join`: empty for no parts, otherwise it starts with the first part |
| Text.NatToString | graphapp/views.py:50 | `str(node_id)` is a non-empty run of decimal digits with no leading zero |
| Text.ParseIntOfNatToString | graphapp/views.py:90-91 | `int(str(n)) == n`: a graph id written back as text reads back as the same id |
| Text.NatToStringInjective | graphapp/views.py:50 | different graph ids are written back as different texts |
| Text.ParseInt | graphapp/views.py:90-91 | `int(text)` succeeds exactly for a non-empty run of decimal digits with at most one leading sign; plain digits read as their decimal value |
| Text.ParseIntRejectsNonNumeric | graphapp/views.py:90-91 | `int` of empty text, or of text not starting with a sign or a digit, raises |
| Props.Get | graphapp/views.py:33 | `dict.get`: a value is returned exactly when some entry has the key (which value: `Props.GetFirstEntry`) |
| Props.GetFirstEntry | graphapp/views.py:33 | `dict.get` finds a value exactly when an entry has the key; the value is that of the first such entry, and no entry before it has the key |
| Props.GetEntry | graphapp/views.py:146 | in a dict with distinct keys, every entry the hover text lists is exactly what `get` returns for its key |
| Props.Put | graphapp/views.py:35 | `d[k] = v`: `k` now maps to `v` and every other key is unchanged; an existing key keeps its position, a new one goes at the end; keys stay distinct |
| Props.AssignStep | graphapp/views.py:35 | the last assignment of a run sets its key and leaves the others as they were |
| Props.AssignDistinct | graphapp/views.py:28-35 | a dict built by successive assignments has distinct keys |
| Props.AssignKeys | graphapp/views.py:28-35 | a key is in the built dict exactly when some assignment sets it |
| Props.AssignValue | graphapp/views.py:28-35 | a present key holds the value of the last assignment that sets it |
| Views.SuppliesAssigns | graphapp/views.py:30-35 | a form field supplies a property exactly when its loop iteration assigns it |
| Views.PairedValue | graphapp/views.py:31-33 | a definition: the value of the field `prop_value_<id>`, where `<id>` is the tail `Text.AfterLast` gives for the field's name, or "" when that field is absent |
| Views.Supplies | graphapp/views.py:30-34 | field `i` is a `prop_key_` field whose value `k` and paired value are both non-empty; `Views.SuppliesAssigns` ties it to the loop's assignments |
| Views.FormProperties | graphapp/views.py:28-35 | the dict the loop builds from the whole form, as successive assignments of the fields' contributions; its keys, values and distinctness are stated by `Views.FormPropertiesSpec` |
| Views.FormPropertiesKeys | graphapp/views.py:28-35 | `k` is a property exactly when some `prop_key_<id>` field has value `k` and `prop_value_<id>` is non-empty |
| Views.FormPropertiesValue | graphapp/views.py:28-35 | a present property holds the paired value of the last field that supplies it |
| Views.FormPropertiesSpec | graphapp/views.py:28-35 | keys are distinct; a key is present exactly when some field supplies it; no key or value is empty; a key supplied twice keeps the later value |
| Views.ExtractProperties | graphapp/views.py:28-35 | the loop over `request.POST.items()` builds exactly the form properties |
| Views.ReturnedId | graphapp/views.py:49 | `result[0]['n'].id` yields an id exactly when the reply holds at least one record, and it is the first record's id |
| Views.MirroredProperties | graphapp/views.py:47 | the properties sent to the graph store map `name` to the node's name and agree with the form properties on every other key |
| Views.StoredNode | graphapp/views.py:45-54 | the row keeps its label and name; `node_id` is set exactly when a record came back, and it reads back as that record's id; only then do the stored properties include `name` |
| Views.NodeEffects | graphapp/views.py:38-54 | the insert comes first; the graph call follows exactly when a connection was made; the write-back follows exactly when a record came back |
| Views.CreateMirroredNode | graphapp/views.py:38-54 | inserts under a fresh key, never removes the row, leaves relationships alone, and returns the effect list above |
| Views.AddNode | graphapp/views.py:22-58 | a missing `label` or `name` raises `IntegrityError` before anything is stored; otherwise the new row is the stored node above under a fresh key |
| Views.RequestedKey | graphapp/views.py:77-78 | an absent id matches no row (`DoesNotExist`), a non-numeric one raises `ValueError`, a numeric one is the key it spells |
| Views.RelationshipRequest | graphapp/views.py:62-84 | succeeds exactly when both ids are numeric keys of stored nodes and a type is given; otherwise the error comes from the source first, then the target, then the NOT NULL type |
| Views.GraphId | graphapp/views.py:90-91 | `int(node.node_id)` fails for a null id, and otherwise yields exactly what the stored text reads as (an id whenever it is numeric) |
| Views.RelationshipMirrorAttempted | graphapp/views.py:87-94 | the graph call is made exactly when a connection exists and both endpoints' stored `node_id` are present and numeric |
| Views.StoredRelationship | graphapp/views.py:87-100 | the row keeps its endpoints, type and properties; `relationship_id` is set exactly when both endpoints were mirrored, a connection was made and a record came back; a null endpoint id leaves it null |
| Views.RelationshipEffects | graphapp/views.py:79-100 | the insert comes first; the graph call follows only when it is attempted, with both endpoint ids and the form properties; the write-back follows exactly when a record came back |
| Views.CreateMirroredRelationship | graphapp/views.py:79-100 | inserts under a fresh key, never removes the row, leaves nodes alone, and returns the effect list above |
| Views.AddRelationship | graphapp/views.py:60-105 | a failed lookup or a missing type raises before any relationship exists; otherwise the new row is the stored relationship above |
| Views.MirroredNodeGraphId | graphapp/views.py:90-91 | a node mirrored by `add_node` gives back, as its graph id, the id the store returned |
| Models.NewNode | graphapp/models.py:42-46 | a new node has the given label, name and properties (default `{}`) and a null `node_id` |
| Models.NewRelationship | graphapp/models.py:51-56 | a new relationship has the given endpoints, type and properties (default `{}`) and a null `relationship_id` |
| Models.NodeString | graphapp/models.py:48-49 | the string form is the label, then `": "`, then the name |
| Models.NodeStringSplits | graphapp/models.py:48-49 | for a label without `:`, splitting the string form at its first `": "` gives back label and name |
| Models.RelationshipString | graphapp/models.py:58-59 | the string form is the source's name, ` --[`, the type, `]--> ` and the target's name |
| Models.RunQuery | graphapp/models.py:11-14 | the statement run has the query text, and an absent or empty parameter map becomes `{}` |
| Models.CreateNodeText | graphapp/models.py:17 | the label sits verbatim between `CREATE (n:` and ` $props) RETURN n` |
| Models.CreateNode | graphapp/models.py:16-18 | the parameters are exactly `{"props": properties}`, and the label reads back from the text |
| Models.CreateNodeTextInverse | graphapp/models.py:17 | a text reads back as label `l` exactly when it is the create-node text for `l` |
| Models.CreateRelationshipText | graphapp/models.py:21-26 | the type sits verbatim between the `MATCH … id(a) = $start_id AND id(b) = $end_id CREATE (a)-[r:` prefix and ` $props]->(b) RETURN r` |
| Models.CreateRelationship | graphapp/models.py:20-32 | the parameters are exactly `start_id`, `end_id` and `props`; the ids are the given ones; `props` is `{}` when the properties are None or empty; the type reads back from the text |
| Models.CreateRelationshipTextInverse | graphapp/models.py:21-26 | a text reads back as type `t` exactly when it is the create-relationship text for `t` |
| Models.GetAllNodes | graphapp/models.py:34-36 | a fixed text with no parameters |
| Models.GetAllRelationships | graphapp/models.py:38-40 | a fixed text with no parameters |
| Store.Cascade | graphapp/models.py:52-53 | after a node is deleted, every relationship incident to it is gone and every other one is kept unchanged |
| Store.CascadeKeepsIntegrity | graphapp/models.py:52-53 | deleting a node with its cascade leaves every relationship's endpoints stored |
| Store.RelationalStore.InsertNode | graphapp/views.py:38-42 | `objects.create`: the row is stored under a fresh key and nothing else changes |
| Store.RelationalStore.GetNode | graphapp/views.py:77-78 | `objects.get`: the row under the key, or `DoesNotExist` |
| Store.RelationalStore.InsertRelationship | graphapp/views.py:79-84 | `objects.create` with two stored endpoints: the row is stored under a fresh key and nothing else changes |
| Store.RelationalStore.SaveNode | graphapp/views.py:51 | `node.save()` replaces that one row |
| Store.RelationalStore.SaveRelationship | graphapp/views.py:97 | `rel.save()` replaces that one row |
| Store.RelationalStore.DeleteNode | graphapp/models.py:52-53 | `node.delete()` removes the node and exactly the relationships incident to it |
| Visualize.FormatPropertiesEmpty | graphapp/views.py:146 | the joined entries are empty exactly when there are no properties, and start with the first entry |
| Visualize.FilterActive | graphapp/views.py:129-133 | a filter applies unless it is `all` or empty, as both `if` tests read |
| Visualize.FormatProperties | graphapp/views.py:146 | the `<b>k:</b> v` entries joined by `<br>`; `Visualize.FormatPropertiesEmpty` states when it is empty and how it starts |
| Visualize.PropertiesSectionPresent | graphapp/views.py:148-149 | the `Properties` tail is present exactly when the record has properties |
| Visualize.NodeHoverShape | graphapp/views.py:146-149 | `<b>Label:</b> L<br><b>Name:</b> N`, followed by the properties heading and entries exactly when there are properties |
| Visualize.NodeHover | graphapp/views.py:146-149 | the node's header followed by the properties section; its shape is stated by `Visualize.NodeHoverShape` |
| Visualize.EdgeHoverShape | graphapp/views.py:178-181 | `<b>Type:</b> T`, followed by the properties exactly when there are any |
| Visualize.EdgeHover | graphapp/views.py:178-181 | the edge's type header followed by the properties section; its shape is stated by `Visualize.EdgeHoverShape` |
| Visualize.NodesLabelled | graphapp/views.py:129-130 | the label filter keeps exactly the rows with that label |
| Visualize.RelationshipsTyped | graphapp/views.py:133-134 | the type filter keeps exactly the relationships of that type |
| Visualize.VisNodes | graphapp/views.py:144-158 | one graph node per selected row, in order, with its hover text |
| Visualize.Endpoints | graphapp/views.py:161-164 | `related_node_ids` holds exactly the ids some selected relationship starts or ends at |
| Visualize.Pruned | graphapp/views.py:167-171 | pruning keeps exactly the nodes whose id is related |
| Visualize.EdgesAmong | graphapp/views.py:174-189 | an ordered pair is an edge exactly when both ids are in the graph and some relationship joins them |
| Visualize.EdgeFromLastRelationship | graphapp/views.py:183-189 | an edge carries the attributes of the last relationship between its pair |
| Visualize.AssembledGraphFilters | graphapp/views.py:129-176 | with a node filter every node has that label; with a type filter every node is an endpoint of a relationship of that type; every edge joins two graph nodes and stands for a selected relationship |
| Visualize.AssembledGraphKeeps | graphapp/views.py:129-171 | a row that passes both filters is in the graph |
| Visualize.AssembledGraph | graphapp/views.py:122-189 | the `DiGraph` the view assembles; what it contains is stated by `Visualize.AssembledGraphFilters`, `Visualize.AssembledGraphKeeps` and `Visualize.BuildGraph` |
| Visualize.SuccessorsAreEdges | graphapp/views.py:291 | the neighbours of a node are the targets of its out-edges |
| Visualize.Successors | graphapp/views.py:291 | `G.neighbors(node)` of a `DiGraph`; `Visualize.SuccessorsAreEdges` states they are the out-edge targets |
| Visualize.SuccessorsAreSurvivingTargets | graphapp/views.py:291 | a node's neighbours are the targets of the selected relationships out of it whose endpoints both survived |
| Visualize.AddNodes | graphapp/views.py:144-158 | the node loop adds exactly the graph nodes above |
| Visualize.RelatedNodeIds | graphapp/views.py:161-164 | the loop collects exactly the endpoint ids |
| Visualize.RemoveUnrelated | graphapp/views.py:167-171 | the pruning loop keeps exactly the related nodes, in order |
| Visualize.AddEdges | graphapp/views.py:174-189 | the edge loop adds exactly the admissible edges |
| Visualize.BuildGraph | graphapp/views.py:115-189 | the assembled graph, with the filtering guarantees |
| Visualize.NodeSizeBaseline | graphapp/views.py:291-292 | a node's size is the base 20 exactly when no edge leaves it |
| Visualize.NodeMarkers | graphapp/views.py:284-296 | per node, in order: size `20 + 5 ×` its number of neighbours, its name, its hover text and its label |
| Middleware.RenderAppend | graphapp/middleware.py:18-45 | formatting distributes over the pieces of the template |
| Middleware.PieceRendered | graphapp/middleware.py:18-45 | each piece appears, formatted, right after the pieces before it |
| Middleware.ScriptCarriesLog | graphapp/middleware.py:21 | the script holds the record's operation and timestamp wherever the template has those fields |
| Middleware.ScriptFields | graphapp/middleware.py:18-45 | the template fills the operation into the console line and into both event details, each followed by the timestamp |
| Middleware.Script | graphapp/middleware.py:18-45 | the f-string rendered from its template; what it carries is stated by `Middleware.ScriptFields` |
| Middleware.IsHtml | graphapp/middleware.py:17 | `'text/html' in Content-Type`: true exactly when `text/html` occurs somewhere in the header |
| Middleware.HasLogFields | graphapp/middleware.py:21 | the record can be formatted: it decoded to an object holding both `operation` and `timestamp` |
| Middleware.Splice | graphapp/middleware.py:51 | the script sits at the position, the text around it is the original, the length grows by the script's length, and taking the script out gives back the original |
| Middleware.ProcessLog | graphapp/middleware.py:13-52 | the block raises exactly for an undecodable record, or for an HTML page whose record lacks `operation` or `timestamp`; the content changes only for HTML with `</body>` past index 0 |
| Middleware.InjectedBeforeBody | graphapp/middleware.py:47-52 | the script lands right before the first `</body>`, the length grows by its length, and removing it recovers the page |
| Middleware.ContentKeptWithoutInjection | graphapp/middleware.py:17-50 | a page that is not HTML, or whose `</body>` is missing or at index 0, is returned unchanged |
| Middleware.MiddlewarePass | graphapp/middleware.py:12-60 | without a record nothing changes; other session keys are never touched |
| Middleware.LogConsumedOnce | graphapp/middleware.py:54-56 | a record processed without error is deleted and the session marked modified, so the next pass changes nothing |
| Middleware.FailureKeepsLog | graphapp/middleware.py:57-58 | when the block raises, the record stays and the response and the modified flag are left as they were |
| Middleware.InjectScript | graphapp/middleware.py:18-52 | the HTML branch leaves exactly the content the pass describes |
| Middleware.Call | graphapp/middleware.py:7-60 | `__call__` leaves the session data, the modified flag and the content that the pass describes |

## Left out

- Layout, plotting and colours: layout algorithms, arrow and midpoint arithmetic, `calculate_angle`, the Plotly figure, and `generate_distinct_colors`. These are floating point, randomness and library calls. The node colours and the `pos` coordinates are therefore not attributes of the modelled graph.
- The early return of `visualize_graph` for an empty graph renders a page and is not modelled. The GET branches of `add_node` and `add_relationship`, `index`, `graph_list`, `render` and `redirect` are page I/O.
- The views `delete_node`, `delete_relationship`, `toggle_demo_mode` and `reset_neo4j_status` appear only as route names; their bodies are not part of this model. The only delete behaviour modelled is the ORM cascade.
- The Neo4j driver, its sessions and `conn.close()`: a statement is the text and parameters handed to `session.run`, and the store's answer is the `Reply` parameter. `get_db_connection` reads the environment; its failure is the `NoConnection` reply. `print` logging is dropped.
- `json.loads` is a parameter `loads` of the middleware that yields a decoded record (or none). The record's values are taken as text, so the way Python renders a non-string JSON value inside the f-string is not modelled.
- The response body is taken as already-decoded text. A body that is not valid UTF-8, which makes `decode` raise inside the `try`, is not modelled. `contentType` stands for `response.get('Content-Type', '')`; header-name case-insensitivity is Django's and is not modelled.
- Text.ParseInt: Python's `int` also accepts surrounding whitespace and digit-group underscores; the model accepts only an optional sign followed by digits.
- `CharField(max_length=...)` limits are enforced by the database, not by the views, and are not modelled. The ORM's key allocation is modelled as a counter that hands out each key once.
- Graph nodes are kept as a sequence in insertion order, as networkx keeps them. The model does not require the rows to have distinct keys; as primary keys of one table they always do.
