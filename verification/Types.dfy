/**
 The vocabulary shared by the commit engine and its codecs: fixed-width integers,
 digests, paths, node states, lowered operations and journal records.
 */
module Types {
  type byte = x: int | 0 <= x < 256
  type u32 = x: int | 0 <= x < 0x1_0000_0000
  type u64 = x: int | 0 <= x < 0x1_0000_0000_0000_0000
  type i128 = x: int |
    -0x8000_0000_0000_0000_0000_0000_0000_0000 <= x < 0x8000_0000_0000_0000_0000_0000_0000_0000

  /** A 32-byte digest. No property of the hash beyond its length is ever used. */
  type Digest = d: seq<byte> | |d| == 32 witness seq(32, _ => 0)

  datatype Option<+T> = None | Some(value: T)
  datatype Result<+T, +E> = Ok(value: T) | Err(error: E) {
    predicate IsFailure() {
      Err?
    }

    function PropagateFailure<U>(): Result<U, E>
      requires Err?
    {
      Err(error)
    }

    function Extract(): T
      requires Ok?
    {
      value
    }
  }

  /** A path is the sequence of its components; the workspace root is the empty one. */
  type Name = seq<byte>
  type Path = seq<Name>

  function Parent(p: Path): Path
    requires p != []
  {
    p[..|p| - 1]
  }

  datatype Kind = File | Directory | Symlink

  datatype FileId = FileId(high: u64, low: u64)

  datatype FileStamp = FileStamp(
    kind: Kind, size: u64, mode: u32, mtime: i128, ctime: Option<i128>, id: FileId)

  /** What a state knows about content: nothing, an exact blob, or a host stamp. */
  datatype Content = NoContent | Blob(blob: Digest) | Stamp(stamp: FileStamp)

  datatype NodeState = NodeState(kind: Kind, size: u64, mode: u32, content: Content)

  function DirectoryState(mode: u32): NodeState {
    NodeState(Directory, 0, mode, NoContent)
  }

  /** Same kind, size and content, whatever the permission bits. */
  predicate ContentEquivalent(a: NodeState, b: NodeState) {
    a.kind == b.kind && a.size == b.size && a.content == b.content
  }

  /** Ownership evidence kept in the journal: what kind of node, and which one. */
  datatype Witness = Witness(kind: Kind, id: FileId)

  function WitnessOf(s: FileStamp): Witness {
    Witness(s.kind, s.id)
  }

  /** The owner-write permission bit, 0o200. */
  predicate OwnerWrite(mode: u32) {
    mode / 128 % 2 == 1
  }

  datatype Operation =
    | Quarantine(path: Path, expected: NodeState, slot: nat)
    | CreateDirectory(path: Path, after: NodeState)
    | InstallFile(path: Path, after: NodeState, slot: nat)
    | InstallSymlink(path: Path, after: NodeState, slot: nat)
    | SetDirectoryMode(path: Path, expected: NodeState, afterMode: u32)
    | SetFileMode(path: Path, expected: NodeState, afterMode: u32)
  {
    predicate IsMode() {
      SetDirectoryMode? || SetFileMode?
    }
  }

  datatype Record =
    | Intent(index: u32, source: Option<Witness>, parent: Witness)
    | Completed(index: u32, owner: Witness)
    | MetadataCompleted(index: u32, stamp: FileStamp)

  datatype IntentWitnesses = IntentWitnesses(source: Option<Witness>, parent: Option<Witness>)

  /** What recovery learns from the journal. */
  datatype JournalState = JournalState(
    completed: map<u32, Witness>,
    metadata: map<u32, FileStamp>,
    intents: map<u32, IntentWitnesses>,
    pending: Option<u32>,
    tornTail: bool)
}
