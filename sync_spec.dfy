/**
 * What one call of `SynchronizeFolders` does to a replica directory and which
 * records it logs, as functions of the source tree, the replica tree and the
 * environment's failures.
 *
 * At one level the call first makes sure the replica directory exists, then
 * makes four passes over the directory listings: copy new or changed files,
 * delete orphan files, synchronize the source's subfolders recursively,
 * delete orphan folders.  Every operation of a pass touches exactly one entry
 * name, so the outcome is described entry by entry: each name goes through
 * the passes that ran, independently of its siblings (`EntryAfter`).
 */
module SyncSpec {
  import opened FileTree

  /** The four passes over one directory level, in the order they run. */
  datatype Pass = CopyFiles | DeleteOrphanFiles | SyncSubfolders | DeleteOrphanFolders

  function PassNumber(pass: Pass): (k: nat)
    ensures 1 <= k <= 4
  {
    match pass
    case CopyFiles => 1
    case DeleteOrphanFiles => 2
    case SyncSubfolders => 3
    case DeleteOrphanFolders => 4
  }

  function PassAt(k: nat): (pass: Pass)
    requires 1 <= k <= 4
    ensures PassNumber(pass) == k
  {
    if k == 1 then CopyFiles
    else if k == 2 then DeleteOrphanFiles
    else if k == 3 then SyncSubfolders
    else DeleteOrphanFolders
  }

  /**
   * The environment's failures during one synchronization pass, each keyed by
   * the path (relative to the source and replica roots) of the operation that
   * throws.  `ListingFault(pass, p)` is the directory listing that starts
   * `pass` in directory `p` throwing; that exception is not caught by the
   * level that made the listing.
   */
  datatype Fault =
    | CreateDirFault(at: Path)
    | ReadSourceFault(at: Path)
    | ReadReplicaFault(at: Path)
    | CopyFault(at: Path)
    | DeleteFileFault(at: Path)
    | DeleteDirFault(at: Path)
    | ListingFault(pass: Pass, at: Path)

  /** What a log record reports about one entry of a directory. */
  datatype Action =
    | Copied | CopyFailed
    | FileDeleted | FileDeleteFailed
    | SubfolderFailed
    | FolderDeleted | FolderDeleteFailed

  /**
   * A log record, without its timestamp and message text: `dir` is the
   * directory whose call emits it, `name` the entry it is about.
   */
  datatype Record =
    | ReplicaCreated(dir: Path)
    | ReplicaCreateFailed(dir: Path)
    | Item(dir: Path, name: Name, action: Action)

  /** Opening a file for reading: its bytes, or nothing when the read throws. */
  function OpenRead(content: Content, fails: bool): (r: Option<Content>)
    ensures r.Some? <==> !fails
    ensures r.Some? ==> r.value == content
  {
    if fails then None else Some(content)
  }

  /**
   * The content check: both files are read and their digests compared; a
   * failed read makes the pair "different".
   */
  function FilesHaveSameContent(first: Option<Content>, second: Option<Content>, digest: Content -> Digest): (same: bool)
    ensures same ==> first.Some? && second.Some?
    ensures first.Some? && second.Some? ==> (same <==> digest(first.value) == digest(second.value))
  {
    match (first, second)
    case (Some(a), Some(b)) => digest(a) == digest(b)
    case _ => false
  }

  /**
   * Whether the copy pass copies a source file with `content` onto the
   * replica entry `r` at path `q`: the entry is not a file, or the two files
   * do not compare the same.
   */
  predicate NeedsCopy(content: Content, r: Option<Node>, q: Path, faults: set<Fault>, digest: Content -> Digest)
  {
    !IsFile(r)
    || !FilesHaveSameContent(OpenRead(content, ReadSourceFault(q) in faults),
                             OpenRead(r.value.content, ReadReplicaFault(q) in faults), digest)
  }

  /** `File.Copy` with overwrite throws when the destination is a directory or the copy fails. */
  predicate CopySucceeds(r: Option<Node>, q: Path, faults: set<Fault>)
  {
    !IsDir(r) && CopyFault(q) !in faults
  }

  /**
   * The replica directory at `p` is missing and cannot be created: a file is in
   * the way, or `Directory.CreateDirectory` fails.
   */
  predicate CreateFails(replica: Option<Node>, p: Path, faults: set<Fault>)
  {
    !IsDir(replica) && (replica.Some? || CreateDirFault(p) in faults)
  }

  /** The listing of the replica directory once it exists. */
  function Base(replica: Option<Node>): map<Name, Node>
  {
    if IsDir(replica) then replica.value.children else map[]
  }

  /** How many of the four passes at `p` start before a directory listing throws. */
  function PassesRun(p: Path, faults: set<Fault>): (k: nat)
    ensures k <= 4
    ensures forall pass :: PassNumber(pass) <= k ==> ListingFault(pass, p) !in faults
    ensures k < 4 ==> ListingFault(PassAt(k + 1), p) in faults
  {
    if ListingFault(CopyFiles, p) in faults then 0
    else if ListingFault(DeleteOrphanFiles, p) in faults then 1
    else if ListingFault(SyncSubfolders, p) in faults then 2
    else if ListingFault(DeleteOrphanFolders, p) in faults then 3
    else 4
  }

  /** The call at `p` returns normally; otherwise a listing exception escapes it. */
  predicate SyncOk(replica: Option<Node>, p: Path, faults: set<Fault>)
  {
    CreateFails(replica, p, faults) || PassesRun(p, faults) == 4
  }

  /**
   * The replica node at `p` after `SynchronizeFolders` reconciled it with the
   * source directory whose listing is `source`.
   */
  function SyncTree(source: map<Name, Node>, replica: Option<Node>, p: Path, faults: set<Fault>, digest: Content -> Digest): (r: Option<Node>)
    decreases Dir(source), 3, 0
    ensures CreateFails(replica, p, faults) ==> r == replica
    ensures !CreateFails(replica, p, faults) ==> IsDir(r)
  {
    if CreateFails(replica, p, faults) then replica
    else Some(Dir(LevelAfter(PassesRun(p, faults), source, Base(replica), p, faults, digest)))
  }

  /** The replica listing after the first `k` passes; each name is processed on its own. */
  function LevelAfter(k: nat, source: map<Name, Node>, replica: map<Name, Node>, p: Path, faults: set<Fault>, digest: Content -> Digest): (level: map<Name, Node>)
    requires k <= 4
    decreases Dir(source), 2, 0
    ensures forall n {:trigger Lookup(level, n)} :: Lookup(level, n) == EntryAfter(k, source, n, Lookup(replica, n), p, faults, digest)
  {
    map n | n in source.Keys + replica.Keys && EntryAfter(k, source, n, Lookup(replica, n), p, faults, digest).Some?
      :: EntryAfter(k, source, n, Lookup(replica, n), p, faults, digest).value
  }

  /** The replica entry `n` of directory `p` after the first `k` passes, starting from `r`. */
  function EntryAfter(k: nat, source: map<Name, Node>, n: Name, r: Option<Node>, p: Path, faults: set<Fault>, digest: Content -> Digest): (e: Option<Node>)
    requires k <= 4
    decreases Dir(source), 1, k
    ensures n !in source && r == None ==> e == None
  {
    if k == 0 then r
    else StepEntry(PassAt(k), source, n, EntryAfter(k - 1, source, n, r, p, faults, digest), p, faults, digest)
  }

  /** What one pass does to the replica entry `n` of directory `p`, currently `r`. */
  function StepEntry(pass: Pass, source: map<Name, Node>, n: Name, r: Option<Node>, p: Path, faults: set<Fault>, digest: Content -> Digest): Option<Node>
    decreases Dir(source), 0, 0
  {
    var s := Lookup(source, n);
    var q := p + [n];
    match pass
    case CopyFiles =>
      if IsFile(s) && NeedsCopy(s.value.content, r, q, faults, digest) && CopySucceeds(r, q, faults) then s else r
    case DeleteOrphanFiles =>
      if IsFile(r) && !IsFile(s) && DeleteFileFault(q) !in faults then None else r
    case SyncSubfolders =>
      if IsDir(s) then SyncTree(s.value.children, r, q, faults, digest) else r
    case DeleteOrphanFolders =>
      if IsDir(r) && !IsDir(s) && DeleteDirFault(q) !in faults then None else r
  }

  /** The record, if any, that a pass logs about the entry `n` itself. */
  function StepAction(pass: Pass, source: map<Name, Node>, n: Name, r: Option<Node>, p: Path, faults: set<Fault>, digest: Content -> Digest): Option<Action>
  {
    var s := Lookup(source, n);
    var q := p + [n];
    match pass
    case CopyFiles =>
      if IsFile(s) && NeedsCopy(s.value.content, r, q, faults, digest) then
        Some(if CopySucceeds(r, q, faults) then Copied else CopyFailed)
      else None
    case DeleteOrphanFiles =>
      if IsFile(r) && !IsFile(s) then
        Some(if DeleteFileFault(q) in faults then FileDeleteFailed else FileDeleted)
      else None
    case SyncSubfolders =>
      if IsDir(s) && !SyncOk(r, q, faults) then Some(SubfolderFailed) else None
    case DeleteOrphanFolders =>
      if IsDir(r) && !IsDir(s) then
        Some(if DeleteDirFault(q) in faults then FolderDeleteFailed else FolderDeleted)
      else None
  }

  /**
   * The records one pass logs while handling entry `n`: its own record and,
   * for a source subfolder, everything the recursive call logs.
   */
  function StepEvents(pass: Pass, source: map<Name, Node>, n: Name, r: Option<Node>, p: Path, faults: set<Fault>, digest: Content -> Digest): (events: set<Record>)
    decreases Dir(source), 0, 0
    ensures forall e :: e in events ==> (e.Item? && e.dir == p && e.name == n) || p + [n] <= e.dir
  {
    var s := Lookup(source, n);
    var a := StepAction(pass, source, n, r, p, faults, digest);
    var own := if a.Some? then {Item(p, n, a.value)} else {};
    if pass == SyncSubfolders && IsDir(s) then SyncEvents(s.value.children, r, p + [n], faults, digest) + own
    else own
  }

  /** The records the first `k` passes log while handling entry `n`. */
  function EntryEvents(k: nat, source: map<Name, Node>, n: Name, r: Option<Node>, p: Path, faults: set<Fault>, digest: Content -> Digest): (events: set<Record>)
    requires k <= 4
    decreases Dir(source), 1, k
    ensures forall e :: e in events ==> (e.Item? && e.dir == p && e.name == n) || p + [n] <= e.dir
  {
    if k == 0 then {}
    else EntryEvents(k - 1, source, n, r, p, faults, digest)
         + StepEvents(PassAt(k), source, n, EntryAfter(k - 1, source, n, r, p, faults, digest), p, faults, digest)
  }

  /** The records the first `k` passes log at directory `p` and below. */
  function LevelEvents(k: nat, source: map<Name, Node>, replica: map<Name, Node>, p: Path, faults: set<Fault>, digest: Content -> Digest): (events: set<Record>)
    requires k <= 4
    decreases Dir(source), 2, 0
    ensures forall e :: e in events ==> p < e.dir || (e.Item? && e.dir == p && e.name in source.Keys + replica.Keys)
  {
    set n, e | n in source.Keys + replica.Keys && e in EntryEvents(k, source, n, Lookup(replica, n), p, faults, digest) :: e
  }

  /** Every record that `SynchronizeFolders` logs for the directory pair at `p`. */
  function SyncEvents(source: map<Name, Node>, replica: Option<Node>, p: Path, faults: set<Fault>, digest: Content -> Digest): (events: set<Record>)
    decreases Dir(source), 3, 0
    ensures forall e :: e in events ==> p <= e.dir
  {
    if CreateFails(replica, p, faults) then {ReplicaCreateFailed(p)}
    else (if IsDir(replica) then {} else {ReplicaCreated(p)})
         + LevelEvents(PassesRun(p, faults), source, Base(replica), p, faults, digest)
  }

  /**
   * Where a record falls in the order of the call at directory `q`, for a
   * record logged at `q` or below: the creation record, the copy pass, the
   * file-deletion pass, everything from the subfolder pass (its own failure
   * records and all records of deeper calls), the folder-deletion pass.
   */
  function Phase(q: Path, e: Record): nat
  {
    if e.dir != q then 3
    else match e
      case ReplicaCreated(_) => 0
      case ReplicaCreateFailed(_) => 0
      case Item(_, _, a) =>
        match a
        case Copied => 1
        case CopyFailed => 1
        case FileDeleted => 2
        case FileDeleteFailed => 2
        case SubfolderFailed => 3
        case FolderDeleted => 4
        case FolderDeleteFailed => 4
  }

  /** The records logged at or below directory `q` appear in the pass order of `q`. */
  ghost predicate OrderedAt(log: seq<Record>, q: Path)
  {
    forall i, j :: 0 <= i < j < |log| && q <= log[i].dir && q <= log[j].dir ==> Phase(q, log[i]) <= Phase(q, log[j])
  }

  /** The records of a log, forgetting order and repetition. */
  function Elements(log: seq<Record>): set<Record>
  {
    set e | e in log
  }
}
