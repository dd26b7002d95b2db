/**
 * The synchronizer as the code runs it: `SynchronizeFolders` makes sure the
 * replica directory exists, then runs its four passes, each a loop over one
 * directory listing that handles one entry at a time, and recurses into the
 * source's subfolders.  Every action and every failure is handed to the
 * logger.  Each method is proved against the functions of SyncSpec.
 */
module FolderSynchronizer {
  import opened FileTree
  import opened SyncSpec
  import opened SyncPasses

  /** The log sink: the records handed to `Log`, in the order they were logged. */
  class Logger {
    var records: seq<Record>

    constructor ()
      ensures records == []
    {
      records := [];
    }

    /** Logging never fails and never throws: the record is always appended. */
    method Log(r: Record)
      modifies this
      ensures records == old(records) + [r]
    {
      records := records + [r];
    }
  }

  /**
   * Reconciles the replica node at `path` with the source directory whose
   * listing is `source` and returns the new replica node; `ok` is false when a
   * directory listing threw, which the caller catches.  `logged` is what the
   * call appended to the log.
   */
  method SynchronizeFolders(source: map<Name, Node>, replica: Option<Node>, path: Path, faults: set<Fault>,
                            digest: Content -> Digest, logger: Logger)
    returns (result: Option<Node>, ok: bool, ghost logged: seq<Record>)
    modifies logger
    decreases Dir(source), 2
    ensures result == SyncTree(source, replica, path, faults, digest)
    ensures ok == SyncOk(replica, path, faults)
    ensures logger.records == old(logger.records) + logged
    ensures Elements(logged) == SyncEvents(source, replica, path, faults, digest)
    ensures forall q :: OrderedAt(logged, q)
    ensures CreateFails(replica, path, faults) ==> logged == [ReplicaCreateFailed(path)]
  {
    var children: map<Name, Node>;
    if !IsDir(replica) {
      // Directory.CreateDirectory throws when a file is in the way or the creation fails.
      if replica.Some? || CreateDirFault(path) in faults {
        logger.Log(ReplicaCreateFailed(path));
        return replica, true, [ReplicaCreateFailed(path)];
      }
      children := map[];
      logger.Log(ReplicaCreated(path));
      logged := [ReplicaCreated(path)];
    } else {
      children := replica.value.children;
      logged := [];
    }
    ghost var base := children;
    ghost var created := Elements(logged);
    FirstStage(source, base, path, faults, digest, created, logged);

    var next: map<Name, Node>;
    ghost var more: seq<Record>;
    next, ok, more := SynchronizeFiles(source, children, path, faults, digest, logger, base, created, logged);
    AppendAssoc(old(logger.records), logged, more);
    children, logged := next, logged + more;
    if ok {
      next, ok, more := SynchronizeDirectories(source, children, path, faults, digest, logger, base, created, logged);
      AppendAssoc(old(logger.records), logged, more);
      children, logged := next, logged + more;
    }
    FinalStage(PassesRun(path, faults), source, replica, base, path, faults, digest, created, children, logged);
    result := Some(Dir(children));
  }

  /**
   * The two file passes of `SynchronizeFolders` at `path`: copying new and
   * changed files, then deleting orphan files.  Each starts by listing a
   * directory; `ok` is false when a listing threw, which ends the call.
   */
  method SynchronizeFiles(source: map<Name, Node>, children: map<Name, Node>, path: Path, faults: set<Fault>,
                          digest: Content -> Digest, logger: Logger,
                          ghost base: map<Name, Node>, ghost created: set<Record>, ghost log: seq<Record>)
    returns (updated: map<Name, Node>, ok: bool, ghost added: seq<Record>)
    modifies logger
    requires Stage(0, source, base, path, faults, digest, created, children, log)
    ensures ok <==> PassesRun(path, faults) >= 2
    ensures Stage(if ok then 2 else PassesRun(path, faults), source, base, path, faults, digest, created, updated, log + added)
    ensures logger.records == old(logger.records) + added
  {
    // Directory.GetFiles(sourcePath) throws: nothing of this level is done.
    if ListingFault(CopyFiles, path) in faults {
      assert log + [] == log;
      return children, false, [];
    }
    var next: map<Name, Node>;
    ghost var more: seq<Record>;
    next, more := CopyNewAndChangedFiles(source, children, path, faults, digest, logger);
    StageStep(0, source, base, path, faults, digest, created, children, log, next, more);
    // Directory.GetFiles(replicaPath) throws: the copies stay in place.
    if ListingFault(DeleteOrphanFiles, path) in faults {
      return next, false, more;
    }
    ghost var rest: seq<Record>;
    updated, rest := RemoveOrphanFiles(source, next, path, faults, digest, logger);
    StageStep(1, source, base, path, faults, digest, created, next, log + more, updated, rest);
    AppendAssoc(log, more, rest);
    AppendAssoc(old(logger.records), more, rest);
    ok, added := true, more + rest;
  }

  /**
   * The two folder passes of `SynchronizeFolders` at `path`, run once both
   * file passes listed their directories: recursing into the source's
   * subfolders, then deleting orphan folders.
   */
  method SynchronizeDirectories(source: map<Name, Node>, children: map<Name, Node>, path: Path, faults: set<Fault>,
                                digest: Content -> Digest, logger: Logger,
                                ghost base: map<Name, Node>, ghost created: set<Record>, ghost log: seq<Record>)
    returns (updated: map<Name, Node>, ok: bool, ghost added: seq<Record>)
    modifies logger
    decreases Dir(source), 1
    requires PassesRun(path, faults) >= 2
    requires Stage(2, source, base, path, faults, digest, created, children, log)
    ensures ok <==> PassesRun(path, faults) == 4
    ensures Stage(PassesRun(path, faults), source, base, path, faults, digest, created, updated, log + added)
    ensures logger.records == old(logger.records) + added
  {
    // Directory.GetDirectories(sourcePath) throws.
    if ListingFault(SyncSubfolders, path) in faults {
      assert log + [] == log;
      return children, false, [];
    }
    var next: map<Name, Node>;
    ghost var more: seq<Record>;
    next, more := SynchronizeSubfolders(source, children, path, faults, digest, logger);
    StageStep(2, source, base, path, faults, digest, created, children, log, next, more);
    // Directory.GetDirectories(replicaPath) throws.
    if ListingFault(DeleteOrphanFolders, path) in faults {
      return next, false, more;
    }
    ghost var rest: seq<Record>;
    updated, rest := RemoveOrphanFolders(source, next, path, faults, digest, logger);
    StageStep(3, source, base, path, faults, digest, created, next, log + more, updated, rest);
    AppendAssoc(log, more, rest);
    AppendAssoc(old(logger.records), more, rest);
    ok, added := true, more + rest;
  }

  /**
   * Copies every source file whose replica counterpart is missing or does not
   * compare the same (`foreach` over `Directory.GetFiles(sourcePath)`).
   */
  method CopyNewAndChangedFiles(source: map<Name, Node>, children: map<Name, Node>, path: Path, faults: set<Fault>,
                                digest: Content -> Digest, logger: Logger)
    returns (updated: map<Name, Node>, ghost added: seq<Record>)
    modifies logger
    ensures updated == PassMap(CopyFiles, source, children, path, faults, digest, Domain(CopyFiles, source, children))
    ensures logger.records == old(logger.records) + added
    ensures Elements(added) == PassEvents(CopyFiles, source, children, path, faults, digest, Domain(CopyFiles, source, children))
    ensures forall e :: e in added ==> e.dir == path && Phase(path, e) == 1
  {
    updated, added := children, [];
    var todo := FileNames(source);
    ghost var done: set<Name> := {};
    while todo != {}
      invariant todo !! done && todo + done == FileNames(source)
      invariant updated == PassMap(CopyFiles, source, children, path, faults, digest, done)
      invariant logger.records == old(logger.records) + added
      invariant Elements(added) == PassEvents(CopyFiles, source, children, path, faults, digest, done)
      invariant forall e :: e in added ==> e.dir == path && Phase(path, e) == 1
      decreases todo
    {
      var n :| n in todo;
      var file := source[n];
      var dest := Lookup(updated, n);
      var q := path + [n];
      ghost var action := StepAction(CopyFiles, source, n, Lookup(children, n), path, faults, digest);
      PassMapStep(CopyFiles, source, children, path, faults, digest, done, n);
      ItemStep(CopyFiles, source, children, path, faults, digest, done, n, added);
      if !IsFile(dest) || !FilesHaveSameContent(OpenRead(file.content, ReadSourceFault(q) in faults),
                                                OpenRead(dest.value.content, ReadReplicaFault(q) in faults), digest) {
        // File.Copy(file, destFile, true) throws when the destination is a directory.
        if IsDir(dest) || CopyFault(q) in faults {
          logger.Log(Item(path, n, CopyFailed));
        } else {
          updated := updated[n := File(file.content)];
          logger.Log(Item(path, n, Copied));
        }
      }
      AppendAssoc(old(logger.records), added, Logged(path, n, action));
      added := added + Logged(path, n, action);
      todo, done := todo - {n}, done + {n};
    }
    assert done == Domain(CopyFiles, source, children);
  }

  /**
   * Deletes every replica file with no same-named source file (`foreach` over
   * `Directory.GetFiles(replicaPath)`).
   */
  method RemoveOrphanFiles(source: map<Name, Node>, children: map<Name, Node>, path: Path, faults: set<Fault>,
                           digest: Content -> Digest, logger: Logger)
    returns (updated: map<Name, Node>, ghost added: seq<Record>)
    modifies logger
    ensures updated == PassMap(DeleteOrphanFiles, source, children, path, faults, digest, Domain(DeleteOrphanFiles, source, children))
    ensures logger.records == old(logger.records) + added
    ensures Elements(added) == PassEvents(DeleteOrphanFiles, source, children, path, faults, digest, Domain(DeleteOrphanFiles, source, children))
    ensures forall e :: e in added ==> e.dir == path && Phase(path, e) == 2
  {
    updated, added := children, [];
    var todo := FileNames(children);
    ghost var done: set<Name> := {};
    while todo != {}
      invariant todo !! done && todo + done == FileNames(children)
      invariant updated == PassMap(DeleteOrphanFiles, source, children, path, faults, digest, done)
      invariant logger.records == old(logger.records) + added
      invariant Elements(added) == PassEvents(DeleteOrphanFiles, source, children, path, faults, digest, done)
      invariant forall e :: e in added ==> e.dir == path && Phase(path, e) == 2
      decreases todo
    {
      var n :| n in todo;
      ghost var action := StepAction(DeleteOrphanFiles, source, n, Lookup(children, n), path, faults, digest);
      PassMapStep(DeleteOrphanFiles, source, children, path, faults, digest, done, n);
      ItemStep(DeleteOrphanFiles, source, children, path, faults, digest, done, n, added);
      if !IsFile(Lookup(source, n)) {
        if DeleteFileFault(path + [n]) in faults {
          logger.Log(Item(path, n, FileDeleteFailed));
        } else {
          updated := updated - {n};
          logger.Log(Item(path, n, FileDeleted));
        }
      }
      AppendAssoc(old(logger.records), added, Logged(path, n, action));
      added := added + Logged(path, n, action);
      todo, done := todo - {n}, done + {n};
    }
    assert done == Domain(DeleteOrphanFiles, source, children);
  }

  /**
   * Synchronizes every source subfolder with the same-named replica path
   * (`foreach` over `Directory.GetDirectories(sourcePath)`); an exception
   * escaping the recursive call is logged and the next subfolder is handled.
   */
  method SynchronizeSubfolders(source: map<Name, Node>, children: map<Name, Node>, path: Path, faults: set<Fault>,
                               digest: Content -> Digest, logger: Logger)
    returns (updated: map<Name, Node>, ghost added: seq<Record>)
    modifies logger
    decreases Dir(source), 0
    ensures updated == PassMap(SyncSubfolders, source, children, path, faults, digest, Domain(SyncSubfolders, source, children))
    ensures logger.records == old(logger.records) + added
    ensures Elements(added) == PassEvents(SyncSubfolders, source, children, path, faults, digest, Domain(SyncSubfolders, source, children))
    ensures forall q :: OrderedAt(added, q)
    ensures forall e :: e in added ==> path <= e.dir && Phase(path, e) == 3
  {
    updated, added := children, [];
    var todo := DirNames(source);
    ghost var done: set<Name> := {};
    while todo != {}
      invariant todo !! done && todo + done == DirNames(source)
      invariant updated == PassMap(SyncSubfolders, source, children, path, faults, digest, done)
      invariant logger.records == old(logger.records) + added
      invariant Elements(added) == PassEvents(SyncSubfolders, source, children, path, faults, digest, done)
      invariant forall q :: OrderedAt(added, q)
      invariant forall e :: e in added ==> path <= e.dir && Phase(path, e) == 3 && (e.dir != path ==> e.dir[|path|] in done)
      decreases todo
    {
      var n :| n in todo;
      var dest := Lookup(updated, n);
      ghost var action := StepAction(SyncSubfolders, source, n, Lookup(children, n), path, faults, digest);
      PassMapStep(SyncSubfolders, source, children, path, faults, digest, done, n);
      var sub, subOk; ghost var inner;
      sub, subOk, inner := SynchronizeFolders(source[n].children, dest, path + [n], faults, digest, logger);
      SubfolderStep(source, children, path, faults, digest, done, n, added, inner);
      updated := if sub.Some? then updated[n := sub.value] else updated - {n};
      if !subOk {
        logger.Log(Item(path, n, SubfolderFailed));
      }
      LogAssoc(old(logger.records), added, inner, Logged(path, n, action));
      added := added + inner + Logged(path, n, action);
      todo, done := todo - {n}, done + {n};
    }
    assert done == Domain(SyncSubfolders, source, children);
  }

  /**
   * Deletes, with everything below it, every replica subfolder with no
   * same-named source subfolder (`foreach` over `Directory.GetDirectories(replicaPath)`).
   */
  method RemoveOrphanFolders(source: map<Name, Node>, children: map<Name, Node>, path: Path, faults: set<Fault>,
                             digest: Content -> Digest, logger: Logger)
    returns (updated: map<Name, Node>, ghost added: seq<Record>)
    modifies logger
    ensures updated == PassMap(DeleteOrphanFolders, source, children, path, faults, digest, Domain(DeleteOrphanFolders, source, children))
    ensures logger.records == old(logger.records) + added
    ensures Elements(added) == PassEvents(DeleteOrphanFolders, source, children, path, faults, digest, Domain(DeleteOrphanFolders, source, children))
    ensures forall e :: e in added ==> e.dir == path && Phase(path, e) == 4
  {
    updated, added := children, [];
    var todo := DirNames(children);
    ghost var done: set<Name> := {};
    while todo != {}
      invariant todo !! done && todo + done == DirNames(children)
      invariant updated == PassMap(DeleteOrphanFolders, source, children, path, faults, digest, done)
      invariant logger.records == old(logger.records) + added
      invariant Elements(added) == PassEvents(DeleteOrphanFolders, source, children, path, faults, digest, done)
      invariant forall e :: e in added ==> e.dir == path && Phase(path, e) == 4
      decreases todo
    {
      var n :| n in todo;
      ghost var action := StepAction(DeleteOrphanFolders, source, n, Lookup(children, n), path, faults, digest);
      PassMapStep(DeleteOrphanFolders, source, children, path, faults, digest, done, n);
      ItemStep(DeleteOrphanFolders, source, children, path, faults, digest, done, n, added);
      if !IsDir(Lookup(source, n)) {
        // Directory.Delete(dir, true) removes the folder and all its descendants.
        if DeleteDirFault(path + [n]) in faults {
          logger.Log(Item(path, n, FolderDeleteFailed));
        } else {
          updated := updated - {n};
          logger.Log(Item(path, n, FolderDeleted));
        }
      }
      AppendAssoc(old(logger.records), added, Logged(path, n, action));
      added := added + Logged(path, n, action);
      todo, done := todo - {n}, done + {n};
    }
    assert done == Domain(DeleteOrphanFolders, source, children);
  }

  // Proof hints: regrouping appended logs, cheaper to use as a lemma than
  // to assert in the middle of a method's proof context.
  lemma AppendAssoc(a: seq<Record>, b: seq<Record>, c: seq<Record>)
    ensures a + b + c == a + (b + c)
  {
  }

  lemma LogAssoc(a: seq<Record>, b: seq<Record>, c: seq<Record>, d: seq<Record>)
    ensures a + b + c + d == a + (b + c + d)
  {
  }

  /**
   * What `SynchronizeFolders` knows after the first `k` passes at `path`: the
   * listing, the records logged so far and their order.
   */
  ghost predicate Stage(k: nat, source: map<Name, Node>, base: map<Name, Node>, path: Path, faults: set<Fault>,
                        digest: Content -> Digest, created: set<Record>, children: map<Name, Node>, log: seq<Record>)
    requires k <= 4
  {
    && children == LevelAfter(k, source, base, path, faults, digest)
    && Elements(log) == created + LevelEvents(k, source, base, path, faults, digest)
    && (forall q :: OrderedAt(log, q))
    && (forall e :: e in log ==> path <= e.dir && Phase(path, e) <= k)
    && (k < 3 ==> forall e :: e in log ==> e.dir == path)
  }

  /** Before any pass: the replica listing and at most the creation record. */
  lemma FirstStage(source: map<Name, Node>, base: map<Name, Node>, path: Path, faults: set<Fault>,
                   digest: Content -> Digest, created: set<Record>, log: seq<Record>)
    requires log == [] || log == [ReplicaCreated(path)]
    requires created == Elements(log)
    ensures Stage(0, source, base, path, faults, digest, created, base, log)
  {
    forall n ensures Lookup(LevelAfter(0, source, base, path, faults, digest), n) == Lookup(base, n) {
    }
    LookupExtensionality(LevelAfter(0, source, base, path, faults, digest), base);
    assert LevelEvents(0, source, base, path, faults, digest) == {};
  }

  /** One more pass, as its method establishes it, advances the stage. */
  lemma StageStep(k: nat, source: map<Name, Node>, base: map<Name, Node>, path: Path, faults: set<Fault>,
                  digest: Content -> Digest, created: set<Record>, children: map<Name, Node>, log: seq<Record>,
                  updated: map<Name, Node>, more: seq<Record>)
    requires k < 4
    requires Stage(k, source, base, path, faults, digest, created, children, log)
    requires updated == PassMap(PassAt(k + 1), source, children, path, faults, digest, Domain(PassAt(k + 1), source, children))
    requires Elements(more) == PassEvents(PassAt(k + 1), source, children, path, faults, digest, Domain(PassAt(k + 1), source, children))
    requires forall e :: e in more ==> path <= e.dir && Phase(path, e) == k + 1
    requires k + 1 != 3 ==> forall e :: e in more ==> e.dir == path
    requires k + 1 == 3 ==> forall q :: OrderedAt(more, q)
    ensures Stage(k + 1, source, base, path, faults, digest, created, updated, log + more)
  {
    NextPassLevel(k, source, base, path, faults, digest);
    NextPassEvents(k, source, base, path, faults, digest);
    if k + 1 != 3 {
      forall i, j | 0 <= i < |more| && 0 <= j < |more| ensures Phase(path, more[i]) == Phase(path, more[j]) {
        assert more[i] in more && more[j] in more;
      }
      FlatOrdered(more, path);
    }
    AppendPass(log, more, path, k + 1);
    assert Elements(log + more) == Elements(log) + Elements(more);
  }

  /** After the passes that ran, the listing and the records are those of the specification. */
  lemma FinalStage(k: nat, source: map<Name, Node>, replica: Option<Node>, base: map<Name, Node>, path: Path,
                   faults: set<Fault>, digest: Content -> Digest, created: set<Record>, children: map<Name, Node>,
                   log: seq<Record>)
    requires !CreateFails(replica, path, faults) && base == Base(replica)
    requires created == if IsDir(replica) then {} else {ReplicaCreated(path)}
    requires k == PassesRun(path, faults)
    requires Stage(k, source, base, path, faults, digest, created, children, log)
    ensures Some(Dir(children)) == SyncTree(source, replica, path, faults, digest)
    ensures SyncOk(replica, path, faults) <==> k == 4
    ensures Elements(log) == SyncEvents(source, replica, path, faults, digest)
    ensures forall q :: OrderedAt(log, q)
  {
  }
}
