/**
 * The property strategy of the CodeRank metric: it walks property
 * declarations and collects a node table keyed by uuid, where each record
 * holds the ids on its `in` list, the ids on its `out` list, the artifact's
 * name and its kind (the PHP class name of the artifact). A property typed
 * with another class adds a class-level edge, and an edge between the two
 * packages when they differ.
 *
 * `in` and `out` are keywords of Dafny; the two lists are called `incoming`
 * and `outgoing` here.
 */
module CodeRankPropertyStrategy {
  import opened Common

  /** What the strategy reads from an artifact: its uuid, name and kind. */
  datatype NodeRef = NodeRef(uuid: Id, name: string, kind: string)

  /** A class together with the package it belongs to. */
  datatype ClassRef = ClassRef(node: NodeRef, package: NodeRef)

  /** A property declaration: the class of its type (None when the property
      has no class type) and the class that declares it. */
  datatype PropertyDecl = PropertyDecl(propertyClass: Option<ClassRef>, declaringClass: ClassRef)

  /** One record of the node table. */
  datatype NodeEntry = NodeEntry(incoming: seq<Id>, outgoing: seq<Id>, name: string, kind: string)

  type NodeTable = map<Id, NodeEntry>

  /** The record a node has in the table, or the fresh record it would get. */
  function EntryOf(nodes: NodeTable, n: NodeRef): (r: NodeEntry)
  {
    if n.uuid in nodes then nodes[n.uuid] else NodeEntry([], [], n.name, n.kind)
  }

  /** initNode on values: a record with empty lists, the name and the kind is
      created only when the uuid is absent; an existing record is kept. */
  function WithNode(nodes: NodeTable, n: NodeRef): (r: NodeTable)
    ensures r.Keys == nodes.Keys + {n.uuid}
    ensures forall k | k in nodes :: r[k] == nodes[k]
    ensures n.uuid !in nodes ==> r[n.uuid] == NodeEntry([], [], n.name, n.kind)
  {
    if n.uuid in nodes then nodes else nodes[n.uuid := NodeEntry([], [], n.name, n.kind)]
  }

  /** The two appends of one edge on a table where both ends have records. */
  function Appended(m: NodeTable, target: Id, source: Id): (r: NodeTable)
    requires target in m && source in m
  {
    var t := m[target];
    var m2 := m[target := t.(incoming := t.incoming + [source])];
    var s := m2[source];
    m2[source := s.(outgoing := s.outgoing + [target])]
  }

  /** One edge: `source` goes onto the `in` list of `target`, and `target`
      onto the `out` list of `source`, after both are initialised. */
  function WithEdge(nodes: NodeTable, target: NodeRef, source: NodeRef): (r: NodeTable)
    requires target.uuid != source.uuid
    ensures r.Keys == nodes.Keys + {target.uuid, source.uuid}
    ensures r[target.uuid].incoming == EntryOf(nodes, target).incoming + [source.uuid]
    ensures r[target.uuid].outgoing == EntryOf(nodes, target).outgoing
    ensures r[source.uuid].outgoing == EntryOf(nodes, source).outgoing + [target.uuid]
    ensures r[source.uuid].incoming == EntryOf(nodes, source).incoming
    ensures r[target.uuid].name == EntryOf(nodes, target).name && r[target.uuid].kind == EntryOf(nodes, target).kind
    ensures r[source.uuid].name == EntryOf(nodes, source).name && r[source.uuid].kind == EntryOf(nodes, source).kind
    ensures forall k | k in nodes && k != target.uuid && k != source.uuid :: r[k] == nodes[k]
  {
    Appended(WithNode(WithNode(nodes, target), source), target.uuid, source.uuid)
  }

  /** visitProperty on values. */
  function WithProperty(nodes: NodeTable, p: PropertyDecl): (r: NodeTable)
    ensures p.propertyClass.None? ==> r == nodes
  {
    match p.propertyClass
    case None => nodes
    case Some(dep) =>
      var decl := p.declaringClass;
      var n1 := if dep.node.uuid != decl.node.uuid then WithEdge(nodes, decl.node, dep.node) else nodes;
      if dep.package.uuid != decl.package.uuid then WithEdge(n1, decl.package, dep.package) else n1
  }

  /** Every id on a list of the table has a record of its own. */
  ghost predicate Closed(nodes: NodeTable)
  {
    forall x, y | x in nodes && (y in nodes[x].incoming || y in nodes[x].outgoing) :: y in nodes
  }

  /** Every edge is recorded at both ends, as often at one end as at the
      other: y occurs on the `in` list of x exactly as many times as x
      occurs on the `out` list of y. */
  ghost predicate Balanced(nodes: NodeTable)
  {
    forall x, y | x in nodes && y in nodes :: multiset(nodes[x].incoming)[y] == multiset(nodes[y].outgoing)[x]
  }

  ghost predicate Consistent(nodes: NodeTable)
  {
    Closed(nodes) && Balanced(nodes)
  }

  /** Creating a record keeps the table consistent: nobody refers to a uuid
      that had no record. */
  lemma WithNodeConsistent(nodes: NodeTable, n: NodeRef)
    requires Consistent(nodes)
    ensures Consistent(WithNode(nodes, n))
  {
    var r := WithNode(nodes, n);
    if n.uuid !in nodes {
      forall x, y | x in r && y in r
        ensures multiset(r[x].incoming)[y] == multiset(r[y].outgoing)[x]
      {
        if x == n.uuid {
          assert r[x].incoming == [];
          if y != n.uuid {
            assert x !in nodes[y].outgoing;
          }
        } else if y == n.uuid {
          assert r[y].outgoing == [];
          assert y !in nodes[x].incoming;
        }
      }
    }
  }

  /** What the appends of one edge do to the lists of each record. */
  lemma AppendedLists(m: NodeTable, target: Id, source: Id, x: Id)
    requires target in m && source in m && target != source && x in m
    ensures var r := Appended(m, target, source);
      && x in r
      && r[x].incoming == (if x == target then m[x].incoming + [source] else m[x].incoming)
      && r[x].outgoing == (if x == source then m[x].outgoing + [target] else m[x].outgoing)
  {
  }

  /** The appends of one edge add one occurrence of `source` on the `in`
      list of `target`, one of `target` on the `out` list of `source`, and
      change no other count. */
  lemma AppendedCounts(m: NodeTable, target: Id, source: Id, x: Id, y: Id)
    requires target in m && source in m && target != source
    requires x in m && y in m
    ensures var r := Appended(m, target, source);
      var added := if x == target && y == source then 1 else 0;
      && multiset(r[x].incoming)[y] == multiset(m[x].incoming)[y] + added
      && multiset(r[y].outgoing)[x] == multiset(m[y].outgoing)[x] + added
  {
    var r := Appended(m, target, source);
    AppendedLists(m, target, source, x);
    AppendedLists(m, target, source, y);
    if x == target {
      assert multiset(r[x].incoming) == multiset(m[x].incoming) + multiset{source};
    }
    if y == source {
      assert multiset(r[y].outgoing) == multiset(m[y].outgoing) + multiset{target};
    }
  }

  /** The appends of one edge only list ids that have records. */
  lemma AppendedClosed(m: NodeTable, target: Id, source: Id)
    requires target in m && source in m && target != source
    requires Closed(m)
    ensures Closed(Appended(m, target, source))
  {
    var r := Appended(m, target, source);
    assert r.Keys == m.Keys;
    forall x, y | x in r && (y in r[x].incoming || y in r[x].outgoing)
      ensures y in r
    {
      AppendedLists(m, target, source, x);
    }
  }

  /** The appends of one edge keep the two ends balanced. */
  lemma AppendedBalanced(m: NodeTable, target: Id, source: Id)
    requires target in m && source in m && target != source
    requires Balanced(m)
    ensures Balanced(Appended(m, target, source))
  {
    var r := Appended(m, target, source);
    assert r.Keys == m.Keys;
    forall x, y | x in r && y in r
      ensures multiset(r[x].incoming)[y] == multiset(r[y].outgoing)[x]
    {
      AppendedCounts(m, target, source, x, y);
    }
  }

  /** The appends of one edge between two recorded ids keep the table
      consistent. */
  lemma AppendedConsistent(m: NodeTable, target: Id, source: Id)
    requires target in m && source in m && target != source
    requires Consistent(m)
    ensures Consistent(Appended(m, target, source))
  {
    AppendedClosed(m, target, source);
    AppendedBalanced(m, target, source);
  }

  /** Adding one edge keeps the table consistent. */
  lemma WithEdgeConsistent(nodes: NodeTable, target: NodeRef, source: NodeRef)
    requires target.uuid != source.uuid
    requires Consistent(nodes)
    ensures Consistent(WithEdge(nodes, target, source))
  {
    var n1 := WithNode(WithNode(nodes, target), source);
    WithNodeConsistent(nodes, target);
    WithNodeConsistent(WithNode(nodes, target), source);
    AppendedConsistent(n1, target.uuid, source.uuid);
  }

  /** visitProperty keeps the table consistent. */
  lemma WithPropertyConsistent(nodes: NodeTable, p: PropertyDecl)
    requires Consistent(nodes)
    ensures Consistent(WithProperty(nodes, p))
  {
    if p.propertyClass.Some? {
      var dep := p.propertyClass.value;
      var decl := p.declaringClass;
      var n1 := if dep.node.uuid != decl.node.uuid then WithEdge(nodes, decl.node, dep.node) else nodes;
      if dep.node.uuid != decl.node.uuid {
        WithEdgeConsistent(nodes, decl.node, dep.node);
      }
      if dep.package.uuid != decl.package.uuid {
        WithEdgeConsistent(n1, decl.package, dep.package);
      }
    }
  }

  /** A property typed with its own declaring class, in the same package,
      leaves the table as it is. */
  lemma SelfTypedPropertyAddsNoEdge(nodes: NodeTable, p: PropertyDecl)
    requires p.propertyClass == Some(p.declaringClass)
    ensures WithProperty(nodes, p) == nodes
  {
  }

  /** The class-level edge of a property whose type is another class in the
      same package: one id appended to each of the two lists, and every other
      record kept. */
  lemma ClassLevelEdge(nodes: NodeTable, p: PropertyDecl)
    requires p.propertyClass.Some?
    requires p.propertyClass.value.node.uuid != p.declaringClass.node.uuid
    requires p.propertyClass.value.package.uuid == p.declaringClass.package.uuid
    ensures var r := WithProperty(nodes, p);
      var decl := p.declaringClass.node;
      var dep := p.propertyClass.value.node;
      && r.Keys == nodes.Keys + {decl.uuid, dep.uuid}
      && r[decl.uuid].incoming == EntryOf(nodes, decl).incoming + [dep.uuid]
      && r[dep.uuid].outgoing == EntryOf(nodes, dep).outgoing + [decl.uuid]
      && (forall k | k in nodes && k != decl.uuid && k != dep.uuid :: r[k] == nodes[k])
  {
  }

  /** A property whose type is another class of another package: the
      class-level edge and the package-level edge, in the same direction,
      each appended once at both of its ends, and every other record kept. */
  lemma PackageLevelEdge(nodes: NodeTable, p: PropertyDecl)
    requires p.propertyClass.Some?
    requires p.propertyClass.value.node.uuid != p.declaringClass.node.uuid
    requires p.propertyClass.value.package.uuid != p.declaringClass.package.uuid
    requires {p.declaringClass.node.uuid, p.propertyClass.value.node.uuid}
          !! {p.declaringClass.package.uuid, p.propertyClass.value.package.uuid}
    ensures var r := WithProperty(nodes, p);
      var decl := p.declaringClass.node;
      var dep := p.propertyClass.value.node;
      var pkg := p.declaringClass.package;
      var depPkg := p.propertyClass.value.package;
      && r.Keys == nodes.Keys + {decl.uuid, dep.uuid, pkg.uuid, depPkg.uuid}
      && r[decl.uuid].incoming == EntryOf(nodes, decl).incoming + [dep.uuid]
      && r[dep.uuid].outgoing == EntryOf(nodes, dep).outgoing + [decl.uuid]
      && r[pkg.uuid].incoming == EntryOf(nodes, pkg).incoming + [depPkg.uuid]
      && r[depPkg.uuid].outgoing == EntryOf(nodes, depPkg).outgoing + [pkg.uuid]
      && (forall k | k in nodes && k !in {decl.uuid, dep.uuid, pkg.uuid, depPkg.uuid} :: r[k] == nodes[k])
  {
  }

  /** Edges are appended, not set: declaring the same property twice puts
      the dependency twice more on the declaring class's `in` list. */
  lemma {:induction false} RepeatedDeclarationAppendsTwice(nodes: NodeTable, p: PropertyDecl)
    requires p.propertyClass.Some?
    requires p.propertyClass.value.node.uuid != p.declaringClass.node.uuid
    requires p.propertyClass.value.package.uuid == p.declaringClass.package.uuid
    ensures var r := WithProperty(WithProperty(nodes, p), p);
      var decl := p.declaringClass.node;
      var dep := p.propertyClass.value.node;
      && r[decl.uuid].incoming == EntryOf(nodes, decl).incoming + [dep.uuid, dep.uuid]
      && r[dep.uuid].outgoing == EntryOf(nodes, dep).outgoing + [decl.uuid, decl.uuid]
  {
    var decl := p.declaringClass.node;
    var dep := p.propertyClass.value.node;
    var r1 := WithProperty(nodes, p);
    ClassLevelEdge(nodes, p);
    ClassLevelEdge(r1, p);
    assert EntryOf(r1, decl) == r1[decl.uuid] && EntryOf(r1, dep) == r1[dep.uuid];
    assert EntryOf(nodes, decl).incoming + [dep.uuid] + [dep.uuid] == EntryOf(nodes, decl).incoming + [dep.uuid, dep.uuid];
    assert EntryOf(nodes, dep).outgoing + [decl.uuid] + [decl.uuid] == EntryOf(nodes, dep).outgoing + [decl.uuid, decl.uuid];
  }

  /** The strategy object and its node table. */
  class PropertyStrategy {
    var nodes: NodeTable

    constructor ()
      ensures nodes == map[]
    {
      nodes := map[];
    }

    /** getCollectedNodes: the table as collected so far. */
    method GetCollectedNodes() returns (r: NodeTable)
      ensures r == nodes
    {
      r := nodes;
    }

    /** visitProperty: nothing happens for a property without a class type;
        otherwise a class-level edge when the classes differ and a
        package-level edge when the packages differ. */
    method VisitProperty(p: PropertyDecl)
      modifies this`nodes
      ensures nodes == WithProperty(old(nodes), p)
      ensures Consistent(old(nodes)) ==> Consistent(nodes)
    {
      if Consistent(nodes) {
        WithPropertyConsistent(nodes, p);
      }
      if p.propertyClass.None? {
        return;
      }
      var depClass := p.propertyClass.value;
      var depPackage := depClass.package;
      var declaring := p.declaringClass;
      var package := declaring.package;
      ghost var n0 := nodes;
      if depClass.node.uuid != declaring.node.uuid {
        AddEdge(declaring.node, depClass.node);
      }
      assert nodes == (if depClass.node.uuid != declaring.node.uuid then WithEdge(n0, declaring.node, depClass.node) else n0);
      if depPackage.uuid != package.uuid {
        AddEdge(package, depPackage);
      }
    }

    /** The two appends of one edge, after both ends are initialised. */
    method AddEdge(target: NodeRef, source: NodeRef)
      requires target.uuid != source.uuid
      modifies this`nodes
      ensures nodes == WithEdge(old(nodes), target, source)
    {
      InitNode(target);
      InitNode(source);
      var t := nodes[target.uuid];
      nodes := nodes[target.uuid := t.(incoming := t.incoming + [source.uuid])];
      var s := nodes[source.uuid];
      nodes := nodes[source.uuid := s.(outgoing := s.outgoing + [target.uuid])];
    }

    /** initNode: a record is inserted only when the uuid has none. */
    method InitNode(n: NodeRef)
      modifies this`nodes
      ensures nodes == WithNode(old(nodes), n)
    {
      if n.uuid !in nodes {
        nodes := nodes[n.uuid := NodeEntry([], [], n.name, n.kind)];
      }
    }
  }
}
