/** The two mutating views of graphapp/views.py, `add_node` and
    `add_relationship`, for a POST request. Each inserts a row into the
    relational store first and then makes one best-effort call to the graph
    store inside a `try` that swallows every exception; nothing is rolled back.

    The graph store is not modelled: `reply` is what it answers to the one
    statement a view may send, and each view returns the ordered list of its
    effects on the two stores. */
module Views {
  import opened Wrappers
  import opened Text
  import opened Props
  import opened Models
  import opened Store

  /** `request.POST.items()`: each field name once, with the value that
      `request.POST.get(name)` returns for it (the last one submitted), in
      form order; `request.POST.get(name)` is `Get(form, name)`. */
  type Form = seq<(string, string)>

  const PropKeyPrefix := "prop_key_"
  const PropValuePrefix := "prop_value_"

  /** The value paired with field `i`: the field `prop_value_<id>`, where `<id>`
      is the text after the last '_' of field `i`'s name, or "" if absent. */
  function PairedValue(form: Form, i: int): string
    requires 0 <= i < |form|
  {
    Get(form, PropValuePrefix + AfterLast(form[i].0, '_')).GetOr("")
  }

  /** Field `i` is a `prop_key_...` field with non-empty value `k` whose paired
      value is non-empty: it contributes the property `k`. */
  predicate Supplies(form: Form, i: int, k: string) {
    && 0 <= i < |form|
    && StartsWith(form[i].0, PropKeyPrefix)
    && form[i].1 == k && k != ""
    && PairedValue(form, i) != ""
  }

  /** What field `i` contributes to the property dict: the entry
      `value ↦ paired value`, or nothing. */
  function Contribution(form: Form, i: int): (c: Option<(string, string)>)
    requires 0 <= i < |form|
    ensures c.Some? <==> Supplies(form, i, form[i].1)
    ensures c.Some? ==> c.value == (form[i].1, PairedValue(form, i))
  {
    if Supplies(form, i, form[i].1) then Some((form[i].1, PairedValue(form, i))) else None
  }

  function Contributions(form: Form): (cs: seq<Option<(string, string)>>)
    ensures |cs| == |form|
    ensures forall i :: 0 <= i < |form| ==> cs[i] == Contribution(form, i)
  {
    seq(|form|, i requires 0 <= i < |form| => Contribution(form, i))
  }

  /** The dict the loop of views.py builds from the whole form. */
  function FormProperties(form: Form): Props {
    Assign(Contributions(form))
  }

  lemma SuppliesAssigns(form: Form, i: int, k: string)
    requires 0 <= i < |form|
    ensures Supplies(form, i, k) <==> Assigns(Contributions(form), i, k)
  {
  }

  /** A key is present exactly when some field supplies it. */
  lemma FormPropertiesKeys(form: Form, k: string)
    ensures Get(FormProperties(form), k).Some? <==> exists i :: Supplies(form, i, k)
  {
    var cs := Contributions(form);
    AssignKeys(cs, k);
    if exists i :: Supplies(form, i, k) {
      var i :| Supplies(form, i, k);
      SuppliesAssigns(form, i, k);
    }
    if exists i :: Assigns(cs, i, k) {
      var i :| Assigns(cs, i, k);
      SuppliesAssigns(form, i, k);
    }
  }

  /** A present key holds the paired value of the last field that supplies it;
      `i` is that field. */
  lemma FormPropertiesValue(form: Form, k: string) returns (i: int)
    requires Get(FormProperties(form), k).Some?
    ensures Supplies(form, i, k) && Get(FormProperties(form), k).value == PairedValue(form, i)
    ensures forall j :: i < j < |form| ==> !Supplies(form, j, k)
  {
    var cs := Contributions(form);
    i := AssignValue(cs, k);
    SuppliesAssigns(form, i, k);
    forall j | i < j < |form|
      ensures !Supplies(form, j, k)
    {
      SuppliesAssigns(form, j, k);
    }
  }

  /** The form properties, as the view promises: keys are distinct, a
      key is present exactly when some `prop_key_<id>` field supplies it, keys
      and values are never empty, and a key supplied twice keeps the later
      field's value. */
  lemma FormPropertiesSpec(form: Form, k: string)
    ensures DistinctKeys(FormProperties(form))
    ensures Get(FormProperties(form), k).Some? <==> exists i :: Supplies(form, i, k)
    ensures Get(FormProperties(form), k).Some? ==>
      && k != "" && Get(FormProperties(form), k).value != ""
      && exists i :: Supplies(form, i, k) && Get(FormProperties(form), k).value == PairedValue(form, i)
           && forall j :: i < j < |form| ==> !Supplies(form, j, k)
  {
    AssignDistinct(Contributions(form));
    FormPropertiesKeys(form, k);
    if Get(FormProperties(form), k).Some? {
      var i := FormPropertiesValue(form, k);
    }
  }

  /** The loop of views.py that collects the extra properties of a form. */
  method ExtractProperties(form: Form) returns (properties: Props)
    ensures properties == FormProperties(form)
  {
    ghost var updates := Contributions(form);
    properties := [];
    var n := 0;
    while n < |form|
      invariant 0 <= n <= |form|
      invariant properties == Assign(updates[..n])
    {
      assert updates[..n + 1][..n] == updates[..n];
      var (key, value) := form[n];
      if StartsWith(key, PropKeyPrefix) && value != "" {
        var propKey := value;
        var propValue := PairedValue(form, n);
        if propKey != "" && propValue != "" {
          properties := Put(properties, propKey, propValue);
        }
      }
      n := n + 1;
    }
    assert updates[..|form|] == updates;
  }

  // ---------------------------------------------------------------------
  // The mirrored create protocol

  /** Why a view raised: a NOT NULL column left null, an id that is not a
      number, or a foreign key that matches no row. */
  datatype ViewError = IntegrityError | InvalidId | DoesNotExist

  /** The graph store's answer to the view's one statement: the connection
      could not be made (nothing was sent), the query raised, or it returned
      records, each giving the id of the created entity. */
  datatype Reply = NoConnection | Raised | Records(ids: seq<nat>)

  datatype Effect =
    | InsertNodeRow(id: int)
    | InsertRelationshipRow(id: int)
    | GraphCall(st: Statement)
    | SaveNodeRow(id: int)
    | SaveRelationshipRow(id: int)

  /** `result[0][...].id`: present only when the reply holds at least one record;
      an empty result raises `IndexError`. */
  function ReturnedId(reply: Reply): (r: Option<nat>)
    ensures r.Some? <==> reply.Records? && |reply.ids| > 0
    ensures r.Some? ==> r.value == reply.ids[0]
  {
    if reply.Records? && |reply.ids| > 0 then Some(reply.ids[0]) else None
  }

  /** The properties `add_node` sends: the form properties with `name` set to
      the node's name. */
  function MirroredProperties(properties: Props, name: string): (r: Props)
    ensures Get(r, "name") == Some(name)
    ensures forall k :: k != "name" ==> Get(r, k) == Get(properties, k)
  {
    Put(properties, "name", name)
  }

  /** The row `add_node` leaves behind. `properties` is one dict shared by the
      row and the mirror call, so when the write-back `node.save()` runs it also
      stores the `name` entry added for the graph store. */
  function StoredNode(nodeLabel: string, name: string, properties: Props, reply: Reply): (n: GraphNode)
    ensures n.nodeLabel == nodeLabel && n.name == name
    ensures n.nodeId.Some? <==> ReturnedId(reply).Some?
    ensures n.nodeId.Some? ==> ParseInt(n.nodeId.value) == Some(ReturnedId(reply).value)
    ensures n.properties == if n.nodeId.Some? then MirroredProperties(properties, name) else properties
  {
    match ReturnedId(reply)
    case Some(g) =>
      ParseIntOfNatToString(g);
      GraphNode(nodeLabel, name, MirroredProperties(properties, name), Some(NatToString(g)))
    case None => NewNode(nodeLabel, name, properties)
  }

  /** `add_node`'s effects, in order: the insert comes first whatever the graph
      store does; the call is made unless no connection could be made; the
      write-back follows only a reply that holds a record. */
  function NodeEffects(id: int, nodeLabel: string, name: string, properties: Props, reply: Reply): (e: seq<Effect>)
    ensures 1 <= |e| <= 3 && e[0] == InsertNodeRow(id)
    ensures |e| >= 2 <==> reply != NoConnection
    ensures |e| >= 2 ==> e[1] == GraphCall(CreateNode(nodeLabel, MirroredProperties(properties, name)))
    ensures |e| == 3 <==> ReturnedId(reply).Some?
    ensures |e| == 3 ==> e[2] == SaveNodeRow(id)
  {
    [InsertNodeRow(id)]
    + (if reply != NoConnection then [GraphCall(CreateNode(nodeLabel, MirroredProperties(properties, name)))] else [])
    + (if ReturnedId(reply).Some? then [SaveNodeRow(id)] else [])
  }

  /** The create-and-mirror steps of `add_node`, once the form is read: the
      insert, then the call, then the write-back of the returned id. */
  method CreateMirroredNode(db: RelationalStore, nodeLabel: string, name: string, properties: Props, reply: Reply)
    returns (id: int, effects: seq<Effect>)
    requires db.Valid()
    modifies db
    ensures db.Valid() && db.rels == old(db.rels)
    ensures id == old(db.nextNodeId) && id !in old(db.nodes)
    ensures db.nodes == old(db.nodes)[id := StoredNode(nodeLabel, name, properties, reply)]
    ensures effects == NodeEffects(id, nodeLabel, name, properties, reply)
  {
    id := db.InsertNode(NewNode(nodeLabel, name, properties));
    effects := [InsertNodeRow(id)];
    if reply != NoConnection {
      var props := MirroredProperties(properties, name);
      effects := effects + [GraphCall(CreateNode(nodeLabel, props))];
      if reply.Records? && |reply.ids| > 0 {
        db.SaveNode(id, GraphNode(nodeLabel, name, props, Some(NatToString(reply.ids[0]))));
        effects := effects + [SaveNodeRow(id)];
      }
    }
  }

  /** `add_node` on a POST. A missing `label` or `name` violates NOT NULL and
      raises before any row exists. */
  method AddNode(db: RelationalStore, form: Form, reply: Reply) returns (res: Result<int, ViewError>, effects: seq<Effect>)
    requires db.Valid()
    modifies db
    ensures db.Valid() && db.rels == old(db.rels)
    ensures Get(form, "label").None? || Get(form, "name").None? ==>
      res == Err(IntegrityError) && effects == [] && db.nodes == old(db.nodes)
    ensures Get(form, "label").Some? && Get(form, "name").Some? ==>
      var id := old(db.nextNodeId);
      var nodeLabel, name := Get(form, "label").value, Get(form, "name").value;
      && res == Ok(id) && id !in old(db.nodes)
      && db.nodes == old(db.nodes)[id := StoredNode(nodeLabel, name, FormProperties(form), reply)]
      && effects == NodeEffects(id, nodeLabel, name, FormProperties(form), reply)
  {
    var labelField, nameField := Get(form, "label"), Get(form, "name");
    var properties := ExtractProperties(form);
    if labelField.None? || nameField.None? {
      return Err(IntegrityError), [];
    }
    var id;
    id, effects := CreateMirroredNode(db, labelField.value, nameField.value, properties, reply);
    res := Ok(id);
  }

  /** The primary key a form field names, as `objects.get(id=...)` reads it:
      an absent field matches no row, a non-numeric one raises `ValueError`. */
  function RequestedKey(form: Form, field: string): (r: Result<int, ViewError>)
    ensures r.Ok? <==> Get(form, field).Some? && ParseInt(Get(form, field).value).Some?
    ensures r.Ok? ==> Some(r.value) == ParseInt(Get(form, field).value)
    ensures r == Err(InvalidId) <==> Get(form, field).Some? && ParseInt(Get(form, field).value).None?
    ensures Get(form, field).None? ==> r == Err(DoesNotExist)
  {
    match Get(form, field)
    case None => Err(DoesNotExist)
    case Some(text) =>
      match ParseInt(text)
      case None => Err(InvalidId)
      case Some(k) => Ok(k)
  }

  /** What `add_relationship` resolves before it inserts: the source row, then
      the target row, then the NOT NULL `type`. */
  function RelationshipRequest(nodes: map<int, GraphNode>, form: Form): (r: Result<(int, int, string), ViewError>)
    ensures r.Ok? ==> r.value.0 in nodes && r.value.1 in nodes && Get(form, "type") == Some(r.value.2)
    ensures r.Ok? ==> RequestedKey(form, "source") == Ok(r.value.0) && RequestedKey(form, "target") == Ok(r.value.1)
    ensures RequestedKey(form, "source").Ok? && RequestedKey(form, "source").value !in nodes ==> r == Err(DoesNotExist)
    ensures RequestedKey(form, "source").Err? ==> r == Err(RequestedKey(form, "source").error)
    ensures r.Ok? <==>
      && RequestedKey(form, "source").Ok? && RequestedKey(form, "source").value in nodes
      && RequestedKey(form, "target").Ok? && RequestedKey(form, "target").value in nodes
      && Get(form, "type").Some?
    ensures RequestedKey(form, "source").Ok? && RequestedKey(form, "source").value in nodes ==>
      && (RequestedKey(form, "target").Err? ==> r == Err(RequestedKey(form, "target").error))
      && (RequestedKey(form, "target").Ok? && RequestedKey(form, "target").value !in nodes ==> r == Err(DoesNotExist))
      && (RequestedKey(form, "target").Ok? && RequestedKey(form, "target").value in nodes && Get(form, "type").None? ==>
            r == Err(IntegrityError))
  {
    match RequestedKey(form, "source")
    case Err(e) => Err(e)
    case Ok(s) =>
      if s !in nodes then Err(DoesNotExist)
      else match RequestedKey(form, "target")
        case Err(e) => Err(e)
        case Ok(t) =>
          if t !in nodes then Err(DoesNotExist)
          else match Get(form, "type")
            case None => Err(IntegrityError)
            case Some(relType) => Ok((s, t, relType))
  }

  /** `int(node.node_id)` inside the `try`: absent when the id is null
      (`int(None)` raises `TypeError`) or not a number. */
  function GraphId(n: GraphNode): (r: Option<int>)
    ensures n.nodeId.None? ==> r.None?
    ensures r.Some? ==> ParseInt(n.nodeId.value) == r
    ensures n.nodeId.Some? && ParseInt(n.nodeId.value).Some? ==> r.Some?
  {
    if n.nodeId.None? then None else ParseInt(n.nodeId.value)
  }

  /** The mirror call is made only when a connection exists and both endpoints
      carry a numeric graph id. */
  predicate RelationshipMirrorAttempted(source: GraphNode, target: GraphNode, reply: Reply)
    ensures RelationshipMirrorAttempted(source, target, reply) <==>
      && reply != NoConnection
      && source.nodeId.Some? && ParseInt(source.nodeId.value).Some?
      && target.nodeId.Some? && ParseInt(target.nodeId.value).Some?
  {
    reply != NoConnection && GraphId(source).Some? && GraphId(target).Some?
  }

  /** The row `add_relationship` leaves behind: its `relationship_id` is set
      only when both endpoints were mirrored and the store returned a record. */
  function StoredRelationship(s: int, t: int, source: GraphNode, target: GraphNode, relType: string,
                              properties: Props, reply: Reply): (r: GraphRelationship)
    ensures r.source == s && r.target == t && r.relType == relType && r.properties == properties
    ensures r.relationshipId.Some? <==> RelationshipMirrorAttempted(source, target, reply) && ReturnedId(reply).Some?
    ensures source.nodeId.None? || target.nodeId.None? ==> r.relationshipId == None
    ensures r.relationshipId.Some? ==> ParseInt(r.relationshipId.value) == Some(ReturnedId(reply).value)
  {
    if RelationshipMirrorAttempted(source, target, reply) && ReturnedId(reply).Some? then
      ParseIntOfNatToString(ReturnedId(reply).value);
      GraphRelationship(s, t, relType, properties, Some(NatToString(ReturnedId(reply).value)))
    else NewRelationship(s, t, relType, properties)
  }

  /** `add_relationship`'s effects, in order: the insert first; then the call,
      only when it is attempted; then the write-back, only after a record. */
  function RelationshipEffects(id: int, source: GraphNode, target: GraphNode, relType: string,
                               properties: Props, reply: Reply): (e: seq<Effect>)
    ensures 1 <= |e| <= 3 && e[0] == InsertRelationshipRow(id)
    ensures |e| >= 2 <==> RelationshipMirrorAttempted(source, target, reply)
    ensures |e| >= 2 ==>
      e[1] == GraphCall(CreateRelationship(GraphId(source).value, GraphId(target).value, relType, Some(properties)))
    ensures |e| == 3 <==> RelationshipMirrorAttempted(source, target, reply) && ReturnedId(reply).Some?
    ensures |e| == 3 ==> e[2] == SaveRelationshipRow(id)
  {
    if !RelationshipMirrorAttempted(source, target, reply) then [InsertRelationshipRow(id)]
    else
      [InsertRelationshipRow(id), GraphCall(CreateRelationship(GraphId(source).value, GraphId(target).value, relType, Some(properties)))]
      + (if ReturnedId(reply).Some? then [SaveRelationshipRow(id)] else [])
  }

  /** The create-and-mirror steps of `add_relationship`, once both endpoint
      rows are fetched. */
  method CreateMirroredRelationship(db: RelationalStore, s: int, t: int, source: GraphNode, target: GraphNode,
                                    relType: string, properties: Props, reply: Reply)
    returns (id: int, effects: seq<Effect>)
    requires db.Valid() && s in db.nodes && t in db.nodes
    modifies db
    ensures db.Valid() && db.nodes == old(db.nodes)
    ensures id == old(db.nextRelId) && id !in old(db.rels)
    ensures db.rels == old(db.rels)[id := StoredRelationship(s, t, source, target, relType, properties, reply)]
    ensures effects == RelationshipEffects(id, source, target, relType, properties, reply)
  {
    id := db.InsertRelationship(NewRelationship(s, t, relType, properties));
    effects := [InsertRelationshipRow(id)];
    if reply != NoConnection {
      var startId, endId := GraphId(source), GraphId(target);
      if startId.Some? && endId.Some? {
        effects := effects + [GraphCall(CreateRelationship(startId.value, endId.value, relType, Some(properties)))];
        if reply.Records? && |reply.ids| > 0 {
          db.SaveRelationship(id, GraphRelationship(s, t, relType, properties, Some(NatToString(reply.ids[0]))));
          effects := effects + [SaveRelationshipRow(id)];
        }
      }
    }
  }

  /** `add_relationship` on a POST. A failed lookup raises before any row is
      created; after the insert, every failure of the mirror is swallowed. */
  method AddRelationship(db: RelationalStore, form: Form, reply: Reply) returns (res: Result<int, ViewError>, effects: seq<Effect>)
    requires db.Valid()
    modifies db
    ensures db.Valid() && db.nodes == old(db.nodes)
    ensures RelationshipRequest(old(db.nodes), form).Err? ==>
      res == Err(RelationshipRequest(old(db.nodes), form).error) && effects == [] && db.rels == old(db.rels)
    ensures RelationshipRequest(old(db.nodes), form).Ok? ==>
      var (s, t, relType) := RelationshipRequest(old(db.nodes), form).value;
      var id := old(db.nextRelId);
      var properties := FormProperties(form);
      && res == Ok(id) && id !in old(db.rels)
      && db.rels == old(db.rels)[id := StoredRelationship(s, t, old(db.nodes)[s], old(db.nodes)[t], relType, properties, reply)]
      && effects == RelationshipEffects(id, old(db.nodes)[s], old(db.nodes)[t], relType, properties, reply)
  {
    var properties := ExtractProperties(form);
    var sourceKey := RequestedKey(form, "source");
    if sourceKey.Err? {
      return Err(sourceKey.error), [];
    }
    var source := db.GetNode(sourceKey.value);
    if source.None? {
      return Err(DoesNotExist), [];
    }
    var targetKey := RequestedKey(form, "target");
    if targetKey.Err? {
      return Err(targetKey.error), [];
    }
    var target := db.GetNode(targetKey.value);
    if target.None? {
      return Err(DoesNotExist), [];
    }
    var typeField := Get(form, "type");
    if typeField.None? {
      return Err(IntegrityError), [];
    }
    var id;
    id, effects := CreateMirroredRelationship(db, sourceKey.value, targetKey.value, source.value, target.value,
                                              typeField.value, properties, reply);
    res := Ok(id);
  }

  /** A node mirrored by `add_node` is usable as an endpoint: the graph id
      written back reads back as the id the store returned. */
  lemma MirroredNodeGraphId(nodeLabel: string, name: string, properties: Props, reply: Reply)
    requires ReturnedId(reply).Some?
    ensures GraphId(StoredNode(nodeLabel, name, properties, reply)) == Some(ReturnedId(reply).value as int)
  {
  }
}
