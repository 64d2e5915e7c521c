/**
 * The live tree: a map from component paths to entries. The root directory is implicit.
 *
 * Changing a directory's entries disturbs that directory's modification time and byte size.
 * What they become is up to the machine, so every disturbance reads the next value of an
 * arbitrary `clock`.
 */
module Tree {
  import opened Paths
  import opened Records

  /** Linux gives every symbolic link this mode. */
  const LINK_MODE: nat := 0x1ff

  datatype Node =
    | Dir(mode: nat, mtime: int, size: nat)
    | File(mode: nat, mtime: int, content: seq<byte>)
    | Link(target: seq<byte>, mtime: int)

  type Nodes = map<Path, Node>

  datatype Fs = Fs(nodes: Nodes, ticks: nat, clock: nat -> (int, nat))

  /** The kernel keeps only permission, set-id and sticky bits. */
  function Permissions(mode: nat): nat {
    mode % 0x1000
  }

  /** `mode | 0o700` */
  function WithOwnerAccess(mode: nat): nat {
    mode - mode / 64 % 8 * 64 + 7 * 64
  }

  /** `m` is the twelve low bits of `mode`. */
  predicate LowBits(m: nat, mode: nat) {
    m < 0x1000 && (mode - m) % 0x1000 == 0
  }

  /** The owner's three bits are set and the other low bits are those of `mode`. */
  predicate OwnerBitsSet(m: nat, mode: nat) {
    m < 0x1000 && m / 64 % 8 == 7 && m % 64 == mode % 64 && m / 512 == mode / 512 % 8
  }

  lemma ModeBits(mode: nat)
    ensures LowBits(Permissions(mode), mode) && OwnerBitsSet(Permissions(WithOwnerAccess(mode)), mode)
  {
    var high, low := mode / 512, mode % 64;
    assert WithOwnerAccess(mode) == 512 * high + (64 * 7 + low);
    Lowest(high, 64 * 7 + low);
    OwnerOf(high % 8, low);
  }

  lemma Lowest(high: nat, low: nat)
    requires low < 512
    ensures Permissions(512 * high + low) == 512 * (high % 8) + low
  {
    assert 512 * high + low == 0x1000 * (high / 8) + (512 * (high % 8) + low);
  }

  lemma OwnerOf(high: nat, low: nat)
    requires high < 8 && low < 64
    ensures var m := 512 * high + (64 * 7 + low); m / 64 % 8 == 7 && m % 64 == low && m / 512 == high
  {
  }

  function KindOf(node: Node): Kind {
    match node
    case Dir(_, _, _) => DirectoryKind
    case File(_, _, _) => FileKind
    case Link(_, _) => LinkKind
  }

  /** The index record a scan makes of an entry; `hash` is BLAKE3, left uninterpreted. */
  function RecordOf(hash: seq<byte> -> Digest, path: Path, node: Node): Record {
    match node
    case Dir(mode, mtime, size) =>
      Record(path, Metadata(DirectoryKind, mode, mtime, size), None, None)
    case File(mode, mtime, content) =>
      Record(path, Metadata(FileKind, mode, mtime, |content|), Some(hash(content)), None)
    case Link(target, mtime) =>
      Record(path, Metadata(LinkKind, LINK_MODE, mtime, |target|), Some(hash(target)), Some(target))
  }

  /** What an index entry has to say of the entry it stands for. */
  predicate Describes(hash: seq<byte> -> Digest, r: Record, x: Path, node: Node) {
    && r.path == x && r.metadata.mtime == node.mtime && r.Kind() == KindOf(node)
    && match node
       case Dir(mode, _, size) =>
         r.Kind() == DirectoryKind && r.metadata.mode == mode && r.metadata.size == size
         && r.digest.None? && r.target.None?
       case File(mode, _, content) =>
         r.Kind() == FileKind && r.metadata.mode == mode && r.metadata.size == |content|
         && r.digest == Some(hash(content)) && r.target.None?
       case Link(target, _) =>
         r.Kind() == LinkKind && r.metadata.mode == 7 * 64 + 7 * 8 + 7 && r.metadata.size == |target|
         && r.digest == Some(hash(target)) && r.target == Some(target)
  }

  /** A record describes one entry alone, as far as its digest tells files apart. */
  lemma RecordDescribes(hash: seq<byte> -> Digest, r: Record, x: Path, node: Node)
    ensures Describes(hash, r, x, node) <==> r == RecordOf(hash, x, node)
  {
  }

  predicate IsDir(nodes: Nodes, x: Path) {
    x in nodes && nodes[x].Dir?
  }

  /** Equal up to what a disturbed directory loses: its modification time and size. */
  predicate SameEntry(a: Node, b: Node) {
    if a.Dir? then b.Dir? && a.mode == b.mode else a == b
  }

  predicate Alike(m: Nodes, m': Nodes, x: Path) {
    && (x in m <==> x in m')
    && (x in m ==> SameEntry(m[x], m'[x]))
  }

  predicate Identical(m: Nodes, m': Nodes, x: Path) {
    && (x in m <==> x in m')
    && (x in m ==> m[x] == m'[x])
  }

  /** Every entry is reached through real directories. */
  ghost predicate WellFormed(nodes: Nodes) {
    && [] !in nodes
    && forall a, x :: x in nodes && Ancestor(a, x) ==> IsDir(nodes, a)
  }

  /** The confined walk of `resolve_parent`: no protected component, no link or file on the way. */
  ghost predicate Resolves(nodes: Nodes, path: Path) {
    && path != []
    && !Protected(path)
    && forall a :: Ancestor(a, path) ==> IsDir(nodes, a)
  }

  /** No component is reserved, and a real directory stands at every proper prefix. */
  ghost predicate Contained(nodes: Nodes, path: Path) {
    && (forall i :: 0 <= i < |path| ==> !Reserved(path[i]))
    && forall k :: 0 < k < |path| ==> path[..k] in nodes && nodes[path[..k]].Dir?
  }

  lemma ResolvesIff(nodes: Nodes, path: Path)
    requires path != []
    ensures Resolves(nodes, path) <==> Contained(nodes, path)
  {
    hide Protected, Reserved;
    ProtectedIff(path);
    forall k | 0 < k < |path| ensures Ancestor(path[..k], path) {
    }
  }

  /** What `rmdir` asks for: no direct entry. */
  ghost predicate Empty(nodes: Nodes, path: Path) {
    forall y :: y in nodes && Ancestor(path, y) ==> |y| != |path| + 1
  }

  function Touch(fs: Fs, dir: Path): (r: Fs)
    ensures r.clock == fs.clock
    ensures forall y :: Alike(r.nodes, fs.nodes, y)
    ensures forall y :: y != dir ==> Identical(r.nodes, fs.nodes, y)
  {
    var (mtime, size) := fs.clock(fs.ticks);
    if dir in fs.nodes && fs.nodes[dir].Dir? then
      fs.(nodes := fs.nodes[dir := Dir(fs.nodes[dir].mode, mtime, size)], ticks := fs.ticks + 1)
    else
      fs.(ticks := fs.ticks + 1)
  }

  /** Adds or replaces a directory entry. */
  function Put(fs: Fs, x: Path, node: Node): (r: Fs)
    requires x != []
    ensures x in r.nodes && r.nodes[x] == node
    ensures forall y :: y != x ==> Alike(r.nodes, fs.nodes, y)
    ensures forall y :: y != x && y != Parent(x) ==> Identical(r.nodes, fs.nodes, y)
  {
    Touch(fs.(nodes := fs.nodes[x := node]), Parent(x))
  }

  /** Removes a directory entry. */
  function Remove(fs: Fs, x: Path): (r: Fs)
    requires x != []
    ensures x !in r.nodes
    ensures forall y :: y != x ==> Alike(r.nodes, fs.nodes, y)
    ensures forall y :: y != x && y != Parent(x) ==> Identical(r.nodes, fs.nodes, y)
  {
    Touch(fs.(nodes := fs.nodes - {x}), Parent(x))
  }

  /** A new or lost entry gives its directory the machine's next time and size, and nothing else changes there. */
  lemma ParentDisturbed(fs: Fs, x: Path, node: Node)
    requires x != []
    ensures
      forall after :: after == Put(fs, x, node) || after == Remove(fs, x) ==>
        && after.clock == fs.clock && after.ticks == fs.ticks + 1
        && (IsDir(fs.nodes, Parent(x)) ==>
              after.nodes[Parent(x)] == Dir(fs.nodes[Parent(x)].mode, fs.clock(fs.ticks).0, fs.clock(fs.ticks).1))
  {
  }

  /** Changes an entry's own metadata; its parent is not disturbed. */
  function Amend(fs: Fs, x: Path, node: Node): (r: Fs)
    ensures x in r.nodes && r.nodes[x] == node
    ensures forall y :: y != x ==> Identical(r.nodes, fs.nodes, y)
  {
    fs.(nodes := fs.nodes[x := node])
  }
}
