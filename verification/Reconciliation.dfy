/**
 * One reconciliation: the source's managed entries, the destination's tree and which of its
 * entries are managed, and the invariant that ties a partly executed plan to the tree.
 */
module Reconciliation {
  import opened Paths
  import opened Records
  import opened Timestamps
  import opened Tree
  import opened Commit

  datatype Problem = Problem(hash: seq<byte> -> Digest, source: Nodes, init: Nodes, managed: set<Path>)

  /** The source index at a path. */
  function Wanted(p: Problem, x: Path): Option<Record> {
    if x in p.source then Some(RecordOf(p.hash, x, p.source[x])) else None
  }

  /** The destination index at a path. */
  function Present(p: Problem, x: Path): Option<Record> {
    if x in p.managed && x in p.init then Some(RecordOf(p.hash, x, p.init[x])) else None
  }

  predicate Involved(p: Problem, x: Path) {
    x in p.source || x in p.managed
  }

  predicate Changed(p: Problem, x: Path) {
    Wanted(p, x) != Present(p, x)
  }

  /** An entry this program can reproduce: permission bits, a representable time, a usable target. */
  predicate Portable(node: Node) {
    match node
    case Dir(mode, mtime, _) => mode < 0x1000 && TimeFits(mtime)
    case File(mode, mtime, _) => mode < 0x1000 && TimeFits(mtime)
    case Link(target, mtime) => target != [] && 0 !in target && TimeFits(mtime)
  }

  /** Both sides are well-formed trees, and each manages some of its entries by its own rules. */
  ghost predicate Valid(p: Problem) {
    && WellFormed(p.source) && (forall x :: x in p.source ==> !Protected(x) && Portable(p.source[x]))
    && WellFormed(p.init) && p.managed <= p.init.Keys && (forall x :: x in p.managed ==> !Protected(x))
  }

  /** A managed directory that must stop being one. */
  predicate GoneDir(p: Problem, x: Path) {
    x in p.managed && IsDir(p.init, x) && !IsDir(p.source, x)
  }

  /** A directory the plan creates or changes. */
  predicate MadeDir(p: Problem, x: Path) {
    IsDir(p.source, x) && Changed(p, x)
  }

  predicate Deferred(p: Problem, x: Path) {
    GoneDir(p, x) || MadeDir(p, x)
  }

  /** An entry the destination does not manage keeps a directory from going. */
  predicate Obstructs(p: Problem, a: Path, u: Path) {
    u in p.init && u !in p.managed && Ancestor(a, u) && GoneDir(p, a)
  }

  /** An entry the destination does not manage is in the way of the source's: only one is a directory. */
  predicate Collides(p: Problem, u: Path) {
    u in p.init && u !in p.managed && u in p.source && p.init[u].Dir? != p.source[u].Dir?
  }

  /** No unmanaged entry stands beneath a directory that has to go, or in the way of an upsert. */
  ghost predicate Clear(p: Problem) {
    && (forall a, u :: !Obstructs(p, a, u))
    && (forall u :: !Collides(p, u))
  }

  /** Equal, except that a directory's byte size belongs to its filesystem. */
  predicate SameButSize(a: Node, b: Node) {
    if a.Dir? then b.Dir? && a.mode == b.mode && a.mtime == b.mtime else a == b
  }

  /** The path is as the source wants it. */
  predicate Settled(p: Problem, n: Nodes, x: Path) {
    if x in p.source then
      && x in n
      && (if Changed(p, x) then SameButSize(n[x], p.source[x]) else Alike(n, p.init, x))
    else x !in n
  }

  /** What waits on the stack for a deferred directory. */
  function Expected(p: Problem, x: Path): seq<Action> {
    if MadeDir(p, x) then [SetMetadata(Wanted(p, x).value.metadata)]
    else if x in p.source && p.source[x].File? then
      [RemoveDirectory, InstallFile(p.source[x].content, Wanted(p, x).value.metadata)]
    else if x in p.source && p.source[x].Link? then
      [RemoveDirectory, MakeSymlink(Wanted(p, x).value)]
    else [RemoveDirectory]
  }

  function Open(pending: seq<Directory>): set<Path> {
    set d | d in pending :: d.path
  }

  /** Where a path stands when the paths in `todo` are still to be planned. */
  predicate NodeOk(p: Problem, n: Nodes, open: set<Path>, todo: set<Path>, x: Path) {
    if x in todo || !Involved(p, x) then Alike(n, p.init, x)
    else if x in open then IsDir(n, x)
    else Settled(p, n, x)
  }

  ghost predicate NodesOk(p: Problem, n: Nodes, open: set<Path>, todo: set<Path>) {
    forall x :: NodeOk(p, n, open, todo, x)
  }

  /** The open directories are a chain of strict prefixes, each waiting for what it should. */
  ghost predicate ChainOk(p: Problem, pending: seq<Directory>, todo: set<Path>) {
    && (forall i, j :: 0 <= i < j < |pending| ==> Ancestor(pending[i].path, pending[j].path))
    && (forall i :: 0 <= i < |pending| ==>
         && pending[i].path !in todo
         && Deferred(p, pending[i].path)
         && pending[i].actions == Expected(p, pending[i].path))
  }

  /** Everything still to be planned comes after what was planned last. */
  ghost predicate OrderOk(pending: seq<Directory>, previous: Option<Path>, todo: set<Path>) {
    && (pending != [] ==> previous.Some? && AtOrAbove(Top(pending).path, previous.value))
    && (previous.Some? ==> forall r :: r in todo ==> Less(previous.value, r))
  }

  /** A directory whose deferred actions ran is never entered again. */
  ghost predicate FinalOk(p: Problem, open: set<Path>, todo: set<Path>) {
    forall x, y ::
      Deferred(p, x) && x !in todo && x !in open && (y in todo || y in open) ==> !Ancestor(x, y)
  }

  ghost predicate Inv(p: Problem, st: State, todo: set<Path>) {
    && NodesOk(p, st.fs.nodes, Open(st.pending), todo)
    && ChainOk(p, st.pending, todo)
    && OrderOk(st.pending, st.previous, todo)
    && FinalOk(p, Open(st.pending), todo)
    && (forall x :: x in todo ==> Involved(p, x))
  }

  /** An operation with the file its transfer staged: the source's bytes at that path. */
  function StagedAs(p: Problem, operation: Operation): Entry {
    var path := operation.At();
    if operation.UpsertFile? && path in p.source && p.source[path].File? then
      Entry(operation, Some(p.source[path].content))
    else Entry(operation, None)
  }

  function StageAll(p: Problem, operations: seq<Operation>): seq<Entry> {
    seq(|operations|, i requires 0 <= i < |operations| => StagedAs(p, operations[i]))
  }

  /** `q` is the next path in order. */
  ghost predicate Least(q: Path, todo: set<Path>) {
    q in todo && forall r :: r in todo ==> AtMost(q, r)
  }
}
