/** The dependency graph of a workspace, built from package manifests and checked for cycles. */
module WorkspaceGraph {
  import opened Common
  import opened DependencyGraph
  import opened Strings

  datatype Field = Dependencies | DevDependencies | PeerDependencies | OptionalDependencies

  const DEFAULT_DEPENDENCY_FIELDS: seq<Field> :=
    [Dependencies, DevDependencies, PeerDependencies, OptionalDependencies]

  /** A package, and the names each field of its manifest lists. */
  datatype Manifest = Manifest(name: string, fields: map<Field, set<string>>)

  datatype Graph = Graph(nodes: seq<string>, edges: Edges)

  datatype GraphError = DuplicatePackage(name: string)

  predicate DistinctPackages(manifests: seq<Manifest>) {
    forall i, j :: 0 <= i < j < |manifests| ==> manifests[i].name != manifests[j].name
  }

  predicate IsPackage(manifests: seq<Manifest>, name: string) {
    exists i :: 0 <= i < |manifests| && manifests[i].name == name
  }

  /** One of the considered fields lists the name. */
  predicate Lists(m: Manifest, fields: seq<Field>, name: string) {
    exists i :: 0 <= i < |fields| && fields[i] in m.fields && name in m.fields[fields[i]]
  }

  /** The package depends on another package of the workspace. */
  predicate DependsOn(manifests: seq<Manifest>, fields: seq<Field>, m: Manifest, name: string) {
    name != m.name && IsPackage(manifests, name) && Lists(m, fields, name)
  }

  /**
   * The graph of the workspace, or the refusal of a name given twice: its nodes
   * are the packages, in order, and each package leads to exactly the other
   * packages it lists, in order.
   */
  method BuildDependencyGraph(manifests: seq<Manifest>, fields: seq<Field> := DEFAULT_DEPENDENCY_FIELDS)
    returns (graph: Result<Graph, GraphError>)
    ensures graph.Ok? <==> DistinctPackages(manifests)
    ensures graph.Ok? ==>
              var g := graph.value;
              && StrictlyIncreasing(g.nodes)
              && (forall name :: name in g.nodes <==> IsPackage(manifests, name))
              && (forall name :: name in g.edges <==> IsPackage(manifests, name))
              && (forall i :: 0 <= i < |manifests| ==>
                    StrictlyIncreasing(g.edges[manifests[i].name]) &&
                    forall name :: name in g.edges[manifests[i].name] <==> DependsOn(manifests, fields, manifests[i], name))
  {
    hide StrictlyIncreasing, Lists, Less;
    var seen: set<string> := {};
    for i := 0 to |manifests|
      invariant forall name :: name in seen <==> exists k :: 0 <= k < i && manifests[k].name == name
      invariant DistinctPackages(manifests[..i])
    {
      if manifests[i].name in seen {
        return Err(DuplicatePackage(manifests[i].name));
      }
      seen := seen + {manifests[i].name};
    }
    assert manifests[..|manifests|] == manifests;
    var nodes := SortedNames(seen);
    var edges: Edges := map[];
    for i := 0 to |manifests|
      invariant forall name :: name in edges <==> exists k :: 0 <= k < i && manifests[k].name == name
      invariant forall k :: 0 <= k < i ==>
                  StrictlyIncreasing(edges[manifests[k].name]) &&
                  forall name :: name in edges[manifests[k].name] <==> DependsOn(manifests, fields, manifests[k], name)
    {
      var targets := Targets(manifests[i], fields, seen);
      var sorted := SortedNames(targets);
      edges := edges[manifests[i].name := sorted];
    }
    graph := Ok(Graph(nodes, edges));
  }

  /** A workspace is acyclic exactly when no cycle is reported; what is reported are simple cycles. */
  method CheckAcyclicity(graph: Graph) returns (acyclic: bool, cycles: seq<seq<string>>)
    ensures acyclic <==> Acyclic(graph.edges)
    ensures acyclic <==> cycles == []
    ensures forall c :: c in cycles ==> IsSimpleCycle(graph.edges, c)
  {
    cycles := DetectCycles(graph.edges);
    acyclic := |cycles| == 0;
  }

  method Targets(m: Manifest, fields: seq<Field>, workspace: set<string>) returns (targets: set<string>)
    ensures forall name :: name in targets <==> name != m.name && name in workspace && Lists(m, fields, name)
  {
    targets := {};
    for i := 0 to |fields|
      invariant forall name :: name in targets <==> name != m.name && name in workspace && Lists(m, fields[..i], name)
    {
      OneMoreField(m, fields, i);
      if fields[i] in m.fields {
        targets := targets + set name | name in m.fields[fields[i]] && name != m.name && name in workspace;
      }
    }
    assert fields[..|fields|] == fields;
  }

  lemma OneMoreField(m: Manifest, fields: seq<Field>, i: nat)
    requires i < |fields|
    ensures forall name :: Lists(m, fields[..i + 1], name) <==>
                           Lists(m, fields[..i], name) || (fields[i] in m.fields && name in m.fields[fields[i]])
  {
    var before, after := fields[..i], fields[..i + 1];
    forall name
      ensures Lists(m, after, name) <==> Lists(m, before, name) || (fields[i] in m.fields && name in m.fields[fields[i]])
    {
      if Lists(m, before, name) {
        var k :| 0 <= k < |before| && before[k] in m.fields && name in m.fields[before[k]];
        assert after[k] == before[k];
      }
      if Lists(m, after, name) {
        var k :| 0 <= k < |after| && after[k] in m.fields && name in m.fields[after[k]];
        assert k < i ==> before[k] == after[k];
      }
      if fields[i] in m.fields && name in m.fields[fields[i]] {
        assert after[i] == fields[i];
      }
    }
  }
}
