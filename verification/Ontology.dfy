/**
 The ontology engine: a schema registry and a graph of typed instances, with a forward
 and a backward adjacency index beside the set of links.
 */
module Ontology {
  import opened Wrappers

  datatype Result<T> = Ok(value: T) | Err(error: Error)

  datatype PropertyType = StringType | IntegerType | FloatType | BooleanType

  datatype PropertyValue = StringValue(s: string) | IntegerValue(i: int) | FloatValue(f: real) | BooleanValue(b: bool) {
    function TypeOf(): PropertyType {
      match this
      case StringValue(_) => StringType
      case IntegerValue(_) => IntegerType
      case FloatValue(_) => FloatType
      case BooleanValue(_) => BooleanType
    }
  }

  type Properties = map<string, PropertyValue>

  datatype ObjectType = ObjectType(name: string, primaryKey: string, schemas: map<string, PropertyType>)
  datatype LinkType = LinkType(name: string, sourceType: string, targetType: string)
  datatype Instance = Instance(id: string, objectType: string, properties: Properties)
  datatype Link = Link(linkType: string, source: string, target: string)
  datatype Direction = Outgoing | Incoming

  datatype Issue = MissingProperty(property: string) | TypeMismatch(property: string, expected: PropertyType, found: PropertyType)
                 | UnknownProperty(property: string)

  datatype Error = ObjectTypeNotRegistered(name: string) | LinkTypeNotRegistered(name: string)
                 | ObjectTypeAlreadyRegistered(name: string) | LinkTypeAlreadyRegistered(name: string)
                 | EmptyPrimaryKey(name: string) | DuplicateInstance(id: string) | InstanceNotFound(id: string)
                 | LinkSourceTypeMismatch(link: Link) | LinkTargetTypeMismatch(link: Link)
                 | DuplicateLink(link: Link) | SchemaValidation(id: string, issues: seq<Issue>)
                 | ImmutablePrimaryKey(id: string, property: string)

  type Index = map<(string, string), set<string>>

  function At(index: Index, node: string, linkType: string): set<string> {
    if (node, linkType) in index then index[(node, linkType)] else {}
  }

  // ---------------------------------------------------------------------
  // What every reachable graph satisfies
  // ---------------------------------------------------------------------

  /** Exactly the declared properties, each of its declared type */
  ghost predicate Fits(schema: ObjectType, properties: Properties) {
    && properties.Keys == schema.schemas.Keys
    && forall p :: p in properties && p in schema.schemas ==> properties[p].TypeOf() == schema.schemas[p]
  }

  ghost predicate Problem(schema: ObjectType, properties: Properties, issue: Issue) {
    match issue
    case MissingProperty(p) => p in schema.schemas && p !in properties
    case TypeMismatch(p, expected, found) =>
      p in schema.schemas && p in properties && expected == schema.schemas[p] && found == properties[p].TypeOf() && expected != found
    case UnknownProperty(p) => p in properties && p !in schema.schemas
  }

  ghost predicate Registered(objectTypes: map<string, ObjectType>, linkTypes: map<string, LinkType>) {
    && (forall n :: n in objectTypes ==> objectTypes[n].name == n && objectTypes[n].primaryKey != "")
    && (forall n :: n in linkTypes ==> linkTypes[n].name == n && linkTypes[n].sourceType in objectTypes && linkTypes[n].targetType in objectTypes)
  }

  ghost predicate Fitting(objectTypes: map<string, ObjectType>, instances: map<string, Instance>) {
    forall id :: id in instances ==>
      && instances[id].id == id && instances[id].objectType in objectTypes
      && Fits(objectTypes[instances[id].objectType], instances[id].properties)
  }

  /** The link joins existing instances of the types its link type declares. */
  ghost predicate Joins(linkTypes: map<string, LinkType>, instances: map<string, Instance>, l: Link) {
    && l.linkType in linkTypes && l.source in instances && l.target in instances
    && instances[l.source].objectType == linkTypes[l.linkType].sourceType
    && instances[l.target].objectType == linkTypes[l.linkType].targetType
  }

  ghost predicate Joined(linkTypes: map<string, LinkType>, instances: map<string, Instance>, links: set<Link>) {
    forall l :: l in links ==> Joins(linkTypes, instances, l)
  }

  ghost predicate Mirrored(links: set<Link>, forward: Index, backward: Index) {
    && (forall l: Link :: l in links <==> l.target in At(forward, l.source, l.linkType))
    && (forall l: Link :: l in links <==> l.source in At(backward, l.target, l.linkType))
  }

  /** What a scan of all links finds from a node */
  ghost predicate Linked(links: set<Link>, node: string, linkType: string, direction: Direction, other: string) {
    match direction
    case Outgoing => Link(linkType, node, other) in links
    case Incoming => Link(linkType, other, node) in links
  }

  function PrimaryKeyOf(objectTypes: map<string, ObjectType>, instance: Instance): Option<PropertyValue> {
    if instance.objectType in objectTypes && objectTypes[instance.objectType].primaryKey in instance.properties
    then Some(instance.properties[objectTypes[instance.objectType].primaryKey]) else None
  }

  /** Instances present before and after keep their type and their primary key. */
  ghost predicate KeysKept(objectTypes: map<string, ObjectType>, before: map<string, Instance>, after: map<string, Instance>) {
    forall id :: id in before && id in after ==>
      before[id].objectType == after[id].objectType && PrimaryKeyOf(objectTypes, before[id]) == PrimaryKeyOf(objectTypes, after[id])
  }

  lemma FitsMeansNoProblem(schema: ObjectType, properties: Properties)
    ensures Fits(schema, properties) <==> forall issue :: !Problem(schema, properties, issue)
  {
    if forall issue :: !Problem(schema, properties, issue) {
      forall p ensures p in properties <==> p in schema.schemas {
        assert !Problem(schema, properties, MissingProperty(p)) && !Problem(schema, properties, UnknownProperty(p));
      }
      forall p | p in properties && p in schema.schemas ensures properties[p].TypeOf() == schema.schemas[p] {
        assert !Problem(schema, properties, TypeMismatch(p, schema.schemas[p], properties[p].TypeOf()));
      }
    }
  }

  function Touching(links: set<Link>, id: string): set<Link> { set l | l in links && (l.source == id || l.target == id) }

  // ---------------------------------------------------------------------
  // The engine
  // ---------------------------------------------------------------------

  class Engine {
    var objectTypes: map<string, ObjectType>
    var linkTypes: map<string, LinkType>
    var instances: map<string, Instance>
    var links: set<Link>
    var forward: Index
    var backward: Index

    ghost predicate Valid() reads this {
      && Registered(objectTypes, linkTypes) && Fitting(objectTypes, instances)
      && Joined(linkTypes, instances, links) && Mirrored(links, forward, backward)
    }

    constructor ()
      ensures Valid() && objectTypes == map[] && linkTypes == map[] && instances == map[] && links == {}
    {
      objectTypes, linkTypes, instances, links, forward, backward := map[], map[], map[], {}, map[], map[];
    }

    // --- Store: the link set and its two indexes ---------------------------

    method InsertLink(l: Link) returns (inserted: bool)
      requires Mirrored(links, forward, backward)
      modifies this`links, this`forward, this`backward
      ensures inserted == (l !in old(links))
      ensures links == old(links) + {l} && Mirrored(links, forward, backward)
    {
      if l in links { assert links == links + {l}; return false; }
      links := links + {l};
      forward := forward[(l.source, l.linkType) := At(forward, l.source, l.linkType) + {l.target}];
      backward := backward[(l.target, l.linkType) := At(backward, l.target, l.linkType) + {l.source}];
      return true;
    }

    method RemoveLink(l: Link) returns (removed: bool)
      requires Mirrored(links, forward, backward)
      modifies this`links, this`forward, this`backward
      ensures removed == (l in old(links))
      ensures links == old(links) - {l} && Mirrored(links, forward, backward)
    {
      if l !in links { assert links == links - {l}; return false; }
      links := links - {l};
      if (l.source, l.linkType) in forward {
        forward := forward[(l.source, l.linkType) := forward[(l.source, l.linkType)] - {l.target}];
      }
      if (l.target, l.linkType) in backward {
        backward := backward[(l.target, l.linkType) := backward[(l.target, l.linkType)] - {l.source}];
      }
      return true;
    }

    method RemoveLinksTouching(id: string) returns (removed: set<Link>)
      requires Mirrored(links, forward, backward)
      modifies this`links, this`forward, this`backward
      ensures removed == Touching(old(links), id)
      ensures links == old(links) - removed && Mirrored(links, forward, backward)
    {
      removed := Touching(links, id);
      var doomed := removed;
      while doomed != {}
        invariant doomed <= removed && Mirrored(links, forward, backward)
        invariant links == old(links) - (removed - doomed)
        decreases |doomed|
      {
        var l :| l in doomed;
        var _ := RemoveLink(l);
        doomed := doomed - {l};
      }
    }

    // --- Schema -----------------------------------------------------------

    method RegisterObjectType(t: ObjectType) returns (r: Result<()>)
      requires Valid()
      modifies this`objectTypes
      ensures Valid()
      ensures r == if t.primaryKey == "" then Err(EmptyPrimaryKey(t.name))
                   else if t.name in old(objectTypes) then Err(ObjectTypeAlreadyRegistered(t.name))
                   else Ok(())
      ensures objectTypes == if r.Ok? then old(objectTypes)[t.name := t] else old(objectTypes)
    {
      if t.primaryKey == "" { return Err(EmptyPrimaryKey(t.name)); }
      if t.name in objectTypes { return Err(ObjectTypeAlreadyRegistered(t.name)); }
      objectTypes := objectTypes[t.name := t];
      return Ok(());
    }

    method RegisterLinkType(t: LinkType) returns (r: Result<()>)
      requires Valid()
      modifies this`linkTypes
      ensures Valid()
      ensures r == if t.sourceType !in objectTypes then Err(ObjectTypeNotRegistered(t.sourceType))
                   else if t.targetType !in objectTypes then Err(ObjectTypeNotRegistered(t.targetType))
                   else if t.name in old(linkTypes) then Err(LinkTypeAlreadyRegistered(t.name))
                   else Ok(())
      ensures linkTypes == if r.Ok? then old(linkTypes)[t.name := t] else old(linkTypes)
    {
      if t.sourceType !in objectTypes { return Err(ObjectTypeNotRegistered(t.sourceType)); }
      if t.targetType !in objectTypes { return Err(ObjectTypeNotRegistered(t.targetType)); }
      if t.name in linkTypes { return Err(LinkTypeAlreadyRegistered(t.name)); }
      linkTypes := linkTypes[t.name := t];
      return Ok(());
    }

    // --- Instances --------------------------------------------------------

    method CreateObjectInstance(instance: Instance) returns (r: Result<()>)
      requires Valid()
      modifies this`instances
      ensures Valid() && KeysKept(objectTypes, old(instances), instances)
      ensures r.Ok? <==> && instance.objectType in objectTypes
                         && Fits(objectTypes[instance.objectType], instance.properties) && instance.id !in old(instances)
      ensures instances == if r.Ok? then old(instances)[instance.id := instance] else old(instances)
      ensures r.Err? ==>
        || (r.error == ObjectTypeNotRegistered(instance.objectType) && instance.objectType !in objectTypes)
        || (r.error == DuplicateInstance(instance.id) && instance.id in old(instances))
        || (r.error.SchemaValidation? && r.error.id == instance.id && instance.objectType in objectTypes
            && !Fits(objectTypes[instance.objectType], instance.properties)
            && forall i :: i in r.error.issues <==> Problem(objectTypes[instance.objectType], instance.properties, i))
    {
      if instance.objectType !in objectTypes { return Err(ObjectTypeNotRegistered(instance.objectType)); }
      var issues := ValidateProperties(objectTypes[instance.objectType], instance.properties);
      if |issues| > 0 { return Err(SchemaValidation(instance.id, issues)); }
      if instance.id in instances { return Err(DuplicateInstance(instance.id)); }
      instances := instances[instance.id := instance];
      return Ok(());
    }

    method UpdateObjectProperties(id: string, updates: Properties) returns (r: Result<()>)
      requires Valid()
      modifies this`instances
      ensures Valid() && KeysKept(objectTypes, old(instances), instances)
      ensures r.Ok? ==>
        id in old(instances) && instances == old(instances)[id := old(instances)[id].(properties := old(instances)[id].properties + updates)]
      ensures r.Err? ==> instances == old(instances)
      ensures id !in old(instances) ==> r == Err(InstanceNotFound(id))
      ensures id in old(instances) && r.Err? ==>
        if objectTypes[old(instances)[id].objectType].primaryKey in updates
           && PrimaryKeyOf(objectTypes, old(instances)[id]) != Some(updates[objectTypes[old(instances)[id].objectType].primaryKey])
        then r.error == ImmutablePrimaryKey(id, objectTypes[old(instances)[id].objectType].primaryKey)
        else r.error.SchemaValidation? && r.error.id == id
      ensures id in old(instances) ==>
        var i := old(instances)[id];
        var key := objectTypes[i.objectType].primaryKey;
        r.Ok? <==> && (key in updates ==> PrimaryKeyOf(objectTypes, i) == Some(updates[key]))
                   && Fits(objectTypes[i.objectType], i.properties + updates)
    {
      if id !in instances { return Err(InstanceNotFound(id)); }
      var existing := instances[id];
      var schema := objectTypes[existing.objectType];
      if schema.primaryKey in updates {
        if PrimaryKeyOf(objectTypes, existing) != Some(updates[schema.primaryKey]) {
          return Err(ImmutablePrimaryKey(id, schema.primaryKey));
        }
      }
      var merged := existing.properties + updates;
      var issues := ValidateProperties(schema, merged);
      if |issues| > 0 { return Err(SchemaValidation(id, issues)); }
      instances := instances[id := existing.(properties := merged)];
      return Ok(());
    }

    method DeleteObjectInstance(id: string) returns (r: Result<nat>)
      requires Valid()
      modifies this`instances, this`links, this`forward, this`backward
      ensures Valid() && KeysKept(objectTypes, old(instances), instances)
      ensures r == if id in old(instances) then Ok(|Touching(old(links), id)|) else Err(InstanceNotFound(id))
      ensures instances == old(instances) - {id}
      ensures links == if r.Ok? then old(links) - Touching(old(links), id) else old(links)
    {
      if id !in instances {
        assert instances == instances - {id};
        return Err(InstanceNotFound(id));
      }
      instances := instances - {id};
      var removed := RemoveLinksTouching(id);
      return Ok(|removed|);
    }

    // --- Links ------------------------------------------------------------

    method CreateLink(l: Link) returns (r: Result<()>)
      requires Valid()
      modifies this`links, this`forward, this`backward
      ensures Valid()
      ensures r.Ok? <==> Joins(linkTypes, instances, l) && l !in old(links)
      ensures links == if r.Ok? then old(links) + {l} else old(links)
      ensures r.Err? ==>
        || (r.error == LinkTypeNotRegistered(l.linkType) && l.linkType !in linkTypes)
        || (r.error == InstanceNotFound(l.source) && l.source !in instances)
        || (r.error == InstanceNotFound(l.target) && l.target !in instances)
        || ((r.error == LinkSourceTypeMismatch(l) || r.error == LinkTargetTypeMismatch(l)) && !Joins(linkTypes, instances, l))
        || (r.error == DuplicateLink(l) && l in old(links))
    {
      if l.linkType !in linkTypes { return Err(LinkTypeNotRegistered(l.linkType)); }
      var schema := linkTypes[l.linkType];
      if l.source !in instances { return Err(InstanceNotFound(l.source)); }
      if instances[l.source].objectType != schema.sourceType { return Err(LinkSourceTypeMismatch(l)); }
      if l.target !in instances { return Err(InstanceNotFound(l.target)); }
      if instances[l.target].objectType != schema.targetType { return Err(LinkTargetTypeMismatch(l)); }
      var inserted := InsertLink(l);
      if !inserted { return Err(DuplicateLink(l)); }
      return Ok(());
    }

    method DeleteLink(l: Link) returns (r: Result<()>)
      requires Valid()
      modifies this`links, this`forward, this`backward
      ensures Valid()
      ensures r == if l in old(links) then Ok(()) else Err(DuplicateLink(l))
      ensures links == old(links) - {l}
    {
      var removed := RemoveLink(l);
      if !removed { return Err(DuplicateLink(l)); }
      return Ok(());
    }

    /** Answers from the index what a scan of all links would answer, each neighbour once. */
    method Traverse(node: string, linkType: string, direction: Direction) returns (found: seq<Instance>)
      requires Valid()
      ensures forall i :: i in found ==> i.id in instances && instances[i.id] == i
      ensures forall id :: Linked(links, node, linkType, direction, id) <==> exists k :: 0 <= k < |found| && found[k].id == id
      ensures forall j, k :: 0 <= j < k < |found| ==> found[j].id != found[k].id
    {
      var ids := At(if direction == Outgoing then forward else backward, node, linkType);
      assert forall id :: id in ids <==> Linked(links, node, linkType, direction, id) by {
        forall id { LinkedInIndex(links, forward, backward, node, linkType, direction, id); }
      }
      assert forall id :: id in ids ==> id in instances by {
        forall id | id in ids ensures id in instances { LinkedExists(linkTypes, instances, links, node, linkType, direction, id); }
      }
      found := Collect(instances, ids);
    }
  }

  lemma LinkedInIndex(links: set<Link>, forward: Index, backward: Index, node: string, linkType: string, direction: Direction, id: string)
    requires Mirrored(links, forward, backward)
    ensures Linked(links, node, linkType, direction, id) <==> id in At(if direction == Outgoing then forward else backward, node, linkType)
  {
    assert Link(linkType, node, id) in links <==> Link(linkType, node, id).target in At(forward, node, linkType);
    assert Link(linkType, id, node) in links <==> Link(linkType, id, node).source in At(backward, node, linkType);
  }

  lemma LinkedExists(linkTypes: map<string, LinkType>, instances: map<string, Instance>, links: set<Link>, node: string, linkType: string,
                     direction: Direction, id: string)
    requires Joined(linkTypes, instances, links) && Linked(links, node, linkType, direction, id)
    ensures id in instances
  {
    assert Joins(linkTypes, instances, if direction == Outgoing then Link(linkType, node, id) else Link(linkType, id, node));
  }

  /** The `filter_map` over the index's id set, in whatever order the set yields them */
  method Collect(instances: map<string, Instance>, ids: set<string>) returns (found: seq<Instance>)
    requires forall id :: id in instances ==> instances[id].id == id
    ensures forall i :: i in found ==> i.id in instances && instances[i.id] == i
    ensures forall id :: id in ids && id in instances <==> exists k :: 0 <= k < |found| && found[k].id == id
    ensures forall j, k :: 0 <= j < k < |found| ==> found[j].id != found[k].id
  {
    found := [];
    var left := ids;
    while left != {}
      invariant left <= ids
      invariant forall k :: 0 <= k < |found| ==> found[k].id in ids - left && found[k].id in instances && instances[found[k].id] == found[k]
      invariant forall id :: id in ids - left && id in instances ==> exists k :: 0 <= k < |found| && found[k].id == id
      invariant forall j, k :: 0 <= j < k < |found| ==> found[j].id != found[k].id
      decreases |left|
    {
      var id :| id in left;
      if id in instances {
        ghost var before := found;
        found := found + [instances[id]];
        assert found[|before|].id == id;
        assert forall k :: 0 <= k < |before| ==> found[k] == before[k];
      }
      left := left - {id};
    }
  }

  /** `validate_properties`: every problem, not just the first */
  method ValidateProperties(schema: ObjectType, properties: Properties) returns (issues: seq<Issue>)
    ensures forall i :: i in issues <==> Problem(schema, properties, i)
    ensures |issues| == 0 <==> Fits(schema, properties)
  {
    issues := [];
    var left := schema.schemas.Keys;
    while left != {}
      invariant left <= schema.schemas.Keys
      invariant forall i :: i in issues <==> Problem(schema, properties, i) && !i.UnknownProperty? && i.property !in left
      decreases |left|
    {
      var p :| p in left;
      if p !in properties {
        issues := issues + [MissingProperty(p)];
      } else if properties[p].TypeOf() != schema.schemas[p] {
        issues := issues + [TypeMismatch(p, schema.schemas[p], properties[p].TypeOf())];
      }
      left := left - {p};
    }
    left := properties.Keys;
    while left != {}
      invariant left <= properties.Keys
      invariant forall i :: i in issues <==> Problem(schema, properties, i) && (i.UnknownProperty? ==> i.property !in left)
      decreases |left|
    {
      var p :| p in left;
      if p !in schema.schemas { issues := issues + [UnknownProperty(p)]; }
      left := left - {p};
    }
    FitsMeansNoProblem(schema, properties);
    if |issues| > 0 { assert Problem(schema, properties, issues[0]); }
  }
}
