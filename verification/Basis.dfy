/** Opening the files a transfer reads: the source's content and the destination's basis. */
module Basis {
  import opened Paths
  import opened Records
  import opened Tree
  import opened Reconciliation
  import opened Convergence
  import opened Obstruction

  datatype Opened = Refused | Absent | Found(content: seq<byte>)

  /** What is at the path, when only real directories lead to a regular file. */
  ghost function RegularAt(nodes: Nodes, path: Path): Opened {
    if Protected(path) then Refused
    else if Resolves(nodes, path) && path in nodes && nodes[path].File? then Found(nodes[path].content)
    else Absent
  }

  /** `open_regular`: a missing or link ancestor is not an error, there is just no file. */
  method OpenRegular(nodes: Nodes, path: Path) returns (r: Opened)
    requires path != []
    ensures r == RegularAt(nodes, path)
    ensures r == Refused <==> exists i :: 0 <= i < |path| && Reserved(path[i])
    ensures r.Found? <==> Contained(nodes, path) && path in nodes && nodes[path].File?
    ensures r.Found? ==> r.content == nodes[path].content
  {
    ProtectedIff(path);
    ResolvesIff(nodes, path);
    hide Resolves, Reserved;
    for i := 0 to |path|
      invariant forall k :: 0 <= k < i ==> !Reserved(path[k])
    {
      ReservedIff(path[i]);
      if path[i] == QUICSYNC || path[i] == GIT { return Refused; }
    }
    for i := 1 to |path|
      invariant forall k :: 0 < k < i ==> path[..k] in nodes && nodes[path[..k]].Dir?
    {
      if !IsDir(nodes, path[..i]) { return Absent; }
    }
    return if path in nodes && nodes[path].File? then Found(nodes[path].content) else Absent;
  }

  lemma ManagedFileOpens(nodes: Nodes, path: Path)
    requires WellFormed(nodes) && !Protected(path) && path in nodes && nodes[path].File?
    ensures RegularAt(nodes, path) == Found(nodes[path].content)
  {
  }

  /**
   * Every planned file transfer finds its source file, and a destination basis when the planner
   * asked for an update, which it does exactly over a regular file the destination manages.
   */
  lemma BasisExists(p: Problem, s: seq<Record>, d: seq<Record>, op: Operation)
    requires Valid(p) && SourceIndex(p, s) && DestinationIndex(p, d)
    requires op in Planned(s, d) && op.UpsertFile?
    ensures op.At() in p.source && p.source[op.At()].File?
    ensures RegularAt(p.source, op.At()) == Found(p.source[op.At()].content)
    ensures op.update ==> RegularAt(p.init, op.At()).Found?
    ensures op.update <==> op.At() in p.managed && RegularAt(p.init, op.At()).Found?
  {
    var x := op.At();
    var first := PlannedFrom(p, s, d, op);
    ManagedFileOpens(p.source, x);
    if x in p.managed && p.init[x].File? {
      ManagedFileOpens(p.init, x);
    }
  }
}
