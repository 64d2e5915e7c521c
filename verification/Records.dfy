/** Index records and planned operations, as every subsystem shares them. */
module Records {
  import opened Paths

  type Digest = seq<byte>

  datatype Kind = DirectoryKind | FileKind | LinkKind

  datatype Metadata = Metadata(kind: Kind, mode: nat, mtime: int, size: nat)

  datatype Record = Record(path: Path, metadata: Metadata, digest: Option<Digest>, target: Option<seq<byte>>) {
    function Kind(): Kind { metadata.kind }
  }

  datatype Operation =
    | UpsertDirectory(id: nat, record: Record)
    | UpsertFile(id: nat, record: Record, update: bool)
    | UpsertSymlink(id: nat, record: Record)
    | Delete(id: nat, path: Path, expectedKind: Kind)
  {
    function At(): Path {
      if Delete? then path else record.path
    }
  }
}
