/** The Django ORM as the views use it: two tables kept as maps from
    auto-increment primary keys to rows. A relationship's `source` and
    `target` are foreign keys declared with `on_delete=CASCADE`. */
module Store {
  import opened Wrappers
  import opened Models

  /** The relationships that survive deleting node `id`: every one incident to
      it goes, every other one stays as it was. */
  function Cascade(rels: map<int, GraphRelationship>, id: int): (r: map<int, GraphRelationship>)
    ensures r.Keys <= rels.Keys
    ensures forall k :: k in r ==> r[k] == rels[k] && r[k].source != id && r[k].target != id
    ensures forall k :: k in rels && rels[k].source != id && rels[k].target != id ==> k in r
  {
    map k | k in rels && rels[k].source != id && rels[k].target != id :: rels[k]
  }

  /** Every relationship's endpoints are stored nodes. */
  ghost predicate Integrity(nodes: map<int, GraphNode>, rels: map<int, GraphRelationship>) {
    forall k :: k in rels ==> rels[k].source in nodes && rels[k].target in nodes
  }

  /** Deleting a node and cascading keeps referential integrity. */
  lemma CascadeKeepsIntegrity(nodes: map<int, GraphNode>, rels: map<int, GraphRelationship>, id: int)
    requires Integrity(nodes, rels)
    ensures Integrity(nodes - {id}, Cascade(rels, id))
  {
  }

  class RelationalStore {
    var nodes: map<int, GraphNode>
    var rels: map<int, GraphRelationship>
    var nextNodeId: int
    var nextRelId: int

    /** Keys are positive and below the next key to hand out (so keys are never
        reused), and foreign keys resolve. */
    ghost predicate Valid()
      reads this
    {
      && 1 <= nextNodeId && 1 <= nextRelId
      && (forall k :: k in nodes ==> 1 <= k < nextNodeId)
      && (forall k :: k in rels ==> 1 <= k < nextRelId)
      && Integrity(nodes, rels)
    }

    constructor ()
      ensures Valid() && nodes == map[] && rels == map[]
    {
      nodes, rels := map[], map[];
      nextNodeId, nextRelId := 1, 1;
    }

    /** `GraphNode.objects.create(...)`: a fresh key, never used before. */
    method InsertNode(n: GraphNode) returns (id: int)
      requires Valid()
      modifies this
      ensures Valid()
      ensures id == old(nextNodeId) && id !in old(nodes)
      ensures nodes == old(nodes)[id := n] && rels == old(rels)
      ensures nextNodeId == old(nextNodeId) + 1 && nextRelId == old(nextRelId)
    {
      id := nextNodeId;
      nodes := nodes[id := n];
      nextNodeId := nextNodeId + 1;
    }

    /** `GraphNode.objects.get(id=...)`: the row, or `DoesNotExist` as `None`. */
    method GetNode(id: int) returns (r: Option<GraphNode>)
      ensures r.Some? <==> id in nodes
      ensures r.Some? ==> r.value == nodes[id]
    {
      r := if id in nodes then Some(nodes[id]) else None;
    }

    /** `GraphRelationship.objects.create(...)` with two fetched endpoint rows. */
    method InsertRelationship(r: GraphRelationship) returns (id: int)
      requires Valid() && r.source in nodes && r.target in nodes
      modifies this
      ensures Valid()
      ensures id == old(nextRelId) && id !in old(rels)
      ensures rels == old(rels)[id := r] && nodes == old(nodes)
      ensures nextRelId == old(nextRelId) + 1 && nextNodeId == old(nextNodeId)
    {
      id := nextRelId;
      rels := rels[id := r];
      nextRelId := nextRelId + 1;
    }

    /** `node.save()` on a stored row. */
    method SaveNode(id: int, n: GraphNode)
      requires Valid() && id in nodes
      modifies this`nodes
      ensures Valid() && nodes == old(nodes)[id := n]
    {
      nodes := nodes[id := n];
    }

    /** `rel.save()` on a stored row whose endpoints are unchanged. */
    method SaveRelationship(id: int, r: GraphRelationship)
      requires Valid() && id in rels && r.source == rels[id].source && r.target == rels[id].target
      modifies this`rels
      ensures Valid() && rels == old(rels)[id := r]
    {
      rels := rels[id := r];
    }

    /** `node.delete()`: the node goes, and with it every relationship whose
        source or target it is; nothing else changes. */
    method DeleteNode(id: int)
      requires Valid()
      modifies this`nodes, this`rels
      ensures Valid()
      ensures nodes == old(nodes) - {id}
      ensures rels == Cascade(old(rels), id)
    {
      CascadeKeepsIntegrity(nodes, rels, id);
      nodes := nodes - {id};
      rels := Cascade(rels, id);
    }
  }
}
