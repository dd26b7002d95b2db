/**
 * Properties of one synchronization pass as SyncSpec describes it: what
 * happens to a single replica entry and which records are logged about it,
 * how failures stay confined to the part of the tree they occur in, and that
 * a pass without failures leaves the replica mirroring the source, after
 * which another pass changes nothing and logs nothing.
 */
module SyncProperties {
  import opened FileTree
  import opened SyncSpec

  /** The replica entry `n` of directory `p` once the call at `p` returns. */
  function Outcome(source: map<Name, Node>, replica: Option<Node>, p: Path, faults: set<Fault>,
                   digest: Content -> Digest, n: Name): (e: Option<Node>)
    ensures !CreateFails(replica, p, faults)
            ==> e == EntryAfter(PassesRun(p, faults), source, n, Lookup(Base(replica), n), p, faults, digest)
  {
    Lookup(Base(SyncTree(source, replica, p, faults, digest)), n)
  }

  /** The actions the first `k` passes report about entry `n` itself. */
  function OwnActions(k: nat, source: map<Name, Node>, n: Name, r: Option<Node>, p: Path, faults: set<Fault>,
                      digest: Content -> Digest): (actions: set<Action>)
    requires k <= 4
    ensures n !in source && r == None ==> actions == {}
  {
    if k == 0 then {}
    else
      var a := StepAction(PassAt(k), source, n, EntryAfter(k - 1, source, n, r, p, faults, digest), p, faults, digest);
      OwnActions(k - 1, source, n, r, p, faults, digest) + (if a.Some? then {a.value} else {})
  }

  /** The actions the call at `p` reports about its entry `n`. */
  function Actions(source: map<Name, Node>, replica: Option<Node>, p: Path, faults: set<Fault>,
                   digest: Content -> Digest, n: Name): set<Action>
  {
    if CreateFails(replica, p, faults) then {}
    else OwnActions(PassesRun(p, faults), source, n, Lookup(Base(replica), n), p, faults, digest)
  }

  /** The action of a pass that ran, as a set. */
  function Reported(ran: bool, a: Option<Action>): set<Action>
  {
    if ran && a.Some? then {a.value} else {}
  }

  /** The entry `n` after each of the first `k` passes, written out. */
  lemma {:induction false} TraceEntry(k: nat, source: map<Name, Node>, n: Name, r: Option<Node>, p: Path,
                                      faults: set<Fault>, digest: Content -> Digest)
    requires k <= 4
    ensures var r1 := StepEntry(CopyFiles, source, n, r, p, faults, digest);
            var r2 := StepEntry(DeleteOrphanFiles, source, n, r1, p, faults, digest);
            var r3 := StepEntry(SyncSubfolders, source, n, r2, p, faults, digest);
            var r4 := StepEntry(DeleteOrphanFolders, source, n, r3, p, faults, digest);
            EntryAfter(k, source, n, r, p, faults, digest)
              == (if k == 0 then r else if k == 1 then r1 else if k == 2 then r2 else if k == 3 then r3 else r4)
  {
    if k > 0 {
      TraceEntry(k - 1, source, n, r, p, faults, digest);
    }
  }

  /** The actions the first `k` passes report about entry `n`, written out. */
  lemma {:induction false} TraceActions(k: nat, source: map<Name, Node>, n: Name, r: Option<Node>, p: Path,
                                        faults: set<Fault>, digest: Content -> Digest)
    requires k <= 4
    ensures var r1 := StepEntry(CopyFiles, source, n, r, p, faults, digest);
            var r2 := StepEntry(DeleteOrphanFiles, source, n, r1, p, faults, digest);
            var r3 := StepEntry(SyncSubfolders, source, n, r2, p, faults, digest);
            OwnActions(k, source, n, r, p, faults, digest)
              == Reported(k >= 1, StepAction(CopyFiles, source, n, r, p, faults, digest))
                 + Reported(k >= 2, StepAction(DeleteOrphanFiles, source, n, r1, p, faults, digest))
                 + Reported(k >= 3, StepAction(SyncSubfolders, source, n, r2, p, faults, digest))
                 + Reported(k >= 4, StepAction(DeleteOrphanFolders, source, n, r3, p, faults, digest))
  {
    if k > 0 {
      TraceActions(k - 1, source, n, r, p, faults, digest);
      TraceEntry(k - 1, source, n, r, p, faults, digest);
    }
  }

  /** The records the first `k` passes log while handling entry `n`, written out. */
  lemma {:induction false} TraceEvents(k: nat, source: map<Name, Node>, n: Name, r: Option<Node>, p: Path,
                                       faults: set<Fault>, digest: Content -> Digest)
    requires k <= 4
    ensures var r1 := StepEntry(CopyFiles, source, n, r, p, faults, digest);
            var r2 := StepEntry(DeleteOrphanFiles, source, n, r1, p, faults, digest);
            var r3 := StepEntry(SyncSubfolders, source, n, r2, p, faults, digest);
            EntryEvents(k, source, n, r, p, faults, digest)
              == (if k >= 1 then StepEvents(CopyFiles, source, n, r, p, faults, digest) else {})
                 + (if k >= 2 then StepEvents(DeleteOrphanFiles, source, n, r1, p, faults, digest) else {})
                 + (if k >= 3 then StepEvents(SyncSubfolders, source, n, r2, p, faults, digest) else {})
                 + (if k >= 4 then StepEvents(DeleteOrphanFolders, source, n, r3, p, faults, digest) else {})
  {
    if k > 0 {
      TraceEvents(k - 1, source, n, r, p, faults, digest);
      TraceEntry(k - 1, source, n, r, p, faults, digest);
    }
  }

  /** A record about entry `n` of `p` is logged by one of the passes that handled `n`. */
  lemma {:induction false} EntryItems(k: nat, source: map<Name, Node>, n: Name, r: Option<Node>, p: Path,
                                      faults: set<Fault>, digest: Content -> Digest, a: Action)
    requires k <= 4
    ensures Item(p, n, a) in EntryEvents(k, source, n, r, p, faults, digest) <==> a in OwnActions(k, source, n, r, p, faults, digest)
  {
    if k > 0 {
      EntryItems(k - 1, source, n, r, p, faults, digest, a);
      var pass := PassAt(k);
      var before := EntryAfter(k - 1, source, n, r, p, faults, digest);
      var s := Lookup(source, n);
      if pass == SyncSubfolders && IsDir(s) {
        assert Item(p, n, a) !in SyncEvents(s.value.children, before, p + [n], faults, digest);
      }
    }
  }

  /**
   * The records the call at `p` logs about its entry `n` are exactly the
   * actions its passes took on `n`.
   */
  lemma ItemRecords(source: map<Name, Node>, replica: Option<Node>, p: Path, faults: set<Fault>,
                    digest: Content -> Digest, n: Name, a: Action)
    ensures Item(p, n, a) in SyncEvents(source, replica, p, faults, digest) <==> a in Actions(source, replica, p, faults, digest, n)
  {
    if !CreateFails(replica, p, faults) {
      var k := PassesRun(p, faults);
      var base := Base(replica);
      EntryItems(k, source, n, Lookup(base, n), p, faults, digest, a);
      var events := LevelEvents(k, source, base, p, faults, digest);
      if Item(p, n, a) in events {
        var m :| m in source.Keys + base.Keys && Item(p, n, a) in EntryEvents(k, source, m, Lookup(base, m), p, faults, digest);
        assert m == n;
      }
      if a in OwnActions(k, source, n, Lookup(base, n), p, faults, digest) {
        assert n in source.Keys + base.Keys;
      }
    }
  }

  /**
   * The records logged below subfolder `n` of `p` are exactly those of the
   * recursive call for `n`, made when the subfolder pass ran and `n` is a
   * source subfolder, on the replica entry as the first two passes left it.
   */
  lemma RecordsBelow(source: map<Name, Node>, replica: Option<Node>, p: Path, faults: set<Fault>,
                     digest: Content -> Digest, n: Name, e: Record)
    requires p + [n] <= e.dir
    ensures e in SyncEvents(source, replica, p, faults, digest)
            <==> && !CreateFails(replica, p, faults)
                 && PassesRun(p, faults) >= 3
                 && IsDir(Lookup(source, n))
                 && e in SyncEvents(Lookup(source, n).value.children,
                                    EntryAfter(2, source, n, Lookup(Base(replica), n), p, faults, digest),
                                    p + [n], faults, digest)
  {
    var q := p + [n];
    assert e.dir != p;
    if !CreateFails(replica, p, faults) {
      var k := PassesRun(p, faults);
      var base := Base(replica);
      var events := LevelEvents(k, source, base, p, faults, digest);
      if e in events {
        var m :| m in source.Keys + base.Keys && e in EntryEvents(k, source, m, Lookup(base, m), p, faults, digest);
        PrefixesOfOnePath(p + [m], q, e.dir);
        assert m == q[|p|];
        EntryRecordsBelow(k, source, n, Lookup(base, n), p, faults, digest, e);
      } else if k >= 3 && IsDir(Lookup(source, n)) {
        EntryRecordsBelow(k, source, n, Lookup(base, n), p, faults, digest, e);
        assert n in source.Keys + base.Keys;
      }
    }
  }

  /** The entry-level half of `RecordsBelow`. */
  lemma {:induction false} EntryRecordsBelow(k: nat, source: map<Name, Node>, n: Name, r: Option<Node>, p: Path,
                                             faults: set<Fault>, digest: Content -> Digest, e: Record)
    requires k <= 4
    requires p + [n] <= e.dir
    ensures e in EntryEvents(k, source, n, r, p, faults, digest)
            <==> && k >= 3
                 && IsDir(Lookup(source, n))
                 && e in SyncEvents(Lookup(source, n).value.children, EntryAfter(2, source, n, r, p, faults, digest),
                                    p + [n], faults, digest)
  {
    if k > 0 {
      EntryRecordsBelow(k - 1, source, n, r, p, faults, digest, e);
      assert e.dir != p;
    }
  }

  /**
   * The copy pass copies source file `n` exactly when the replica has no file
   * of that name or the two files do not compare the same, and logs a
   * failure when the copy throws; a file that compares the same is left
   * alone and nothing at all is logged about it.
   */
  lemma CopyWhenMissingOrDifferent(source: map<Name, Node>, replica: Option<Node>, p: Path, faults: set<Fault>,
                                   digest: Content -> Digest, n: Name)
    requires !CreateFails(replica, p, faults)
    requires IsFile(Lookup(source, n))
    ensures var file := Lookup(source, n).value;
            var r := Lookup(Base(replica), n);
            var q := p + [n];
            var actions := Actions(source, replica, p, faults, digest, n);
            var copy := ListingFault(CopyFiles, p) !in faults && NeedsCopy(file.content, r, q, faults, digest);
            && (Copied in actions <==> copy && CopySucceeds(r, q, faults))
            && (CopyFailed in actions <==> copy && !CopySucceeds(r, q, faults))
            && (copy && CopySucceeds(r, q, faults) ==> Outcome(source, replica, p, faults, digest, n) == Some(file))
            && (CopyFault(q) in faults && !IsDir(r) ==> Outcome(source, replica, p, faults, digest, n) == r)
            && (!NeedsCopy(file.content, r, q, faults, digest) ==>
                  && actions == {}
                  && Outcome(source, replica, p, faults, digest, n) == r
                  && forall e :: e in SyncEvents(source, replica, p, faults, digest) ==> !(q <= e.dir))
  {
    TraceEntry(PassesRun(p, faults), source, n, Lookup(Base(replica), n), p, faults, digest);
    TraceActions(PassesRun(p, faults), source, n, Lookup(Base(replica), n), p, faults, digest);
    var q := p + [n];
    forall e | e in SyncEvents(source, replica, p, faults, digest) && q <= e.dir ensures false {
      RecordsBelow(source, replica, p, faults, digest, n, e);
    }
  }

  /**
   * Comparing contents counts as "different" whenever either file cannot be
   * read; otherwise it compares their digests.
   */
  lemma UnreadableMeansDifferent(content: Content, r: Option<Node>, q: Path, faults: set<Fault>, digest: Content -> Digest)
    requires IsFile(r)
    ensures NeedsCopy(content, r, q, faults, digest)
            <==> || ReadSourceFault(q) in faults
                 || ReadReplicaFault(q) in faults
                 || digest(content) != digest(r.value.content)
  {
  }

  /**
   * A replica file with no same-named source file is deleted by the second
   * pass, or a failure is logged; a replica file with a same-named source
   * file is never deleted.
   */
  lemma OrphanFileDeleted(source: map<Name, Node>, replica: Option<Node>, p: Path, faults: set<Fault>,
                          digest: Content -> Digest, n: Name)
    requires !CreateFails(replica, p, faults)
    requires PassesRun(p, faults) >= 2
    requires IsFile(Lookup(Base(replica), n)) && !IsFile(Lookup(source, n))
    ensures var q := p + [n];
            var actions := Actions(source, replica, p, faults, digest, n);
            && (FileDeleted in actions <==> DeleteFileFault(q) !in faults)
            && (FileDeleteFailed in actions <==> DeleteFileFault(q) in faults)
            && (n !in source ==>
                  && actions == {if DeleteFileFault(q) in faults then FileDeleteFailed else FileDeleted}
                  && Outcome(source, replica, p, faults, digest, n)
                     == if DeleteFileFault(q) in faults then Lookup(Base(replica), n) else None)
  {
    TraceEntry(PassesRun(p, faults), source, n, Lookup(Base(replica), n), p, faults, digest);
    TraceActions(PassesRun(p, faults), source, n, Lookup(Base(replica), n), p, faults, digest);
  }

  /**
   * The file-deletion pass never deletes, or reports, a file the source also
   * has: a replica file of that name ends as itself or as the copied source
   * file.
   */
  lemma SourceFileNotDeleted(source: map<Name, Node>, replica: Option<Node>, p: Path, faults: set<Fault>,
                             digest: Content -> Digest, n: Name)
    requires IsFile(Lookup(source, n))
    ensures FileDeleted !in Actions(source, replica, p, faults, digest, n)
    ensures FileDeleteFailed !in Actions(source, replica, p, faults, digest, n)
    ensures !CreateFails(replica, p, faults) && IsFile(Lookup(Base(replica), n)) ==>
              var e := Outcome(source, replica, p, faults, digest, n);
              && IsFile(e)
              && (e == Lookup(Base(replica), n) || e == Lookup(source, n))
  {
    TraceEntry(PassesRun(p, faults), source, n, Lookup(Base(replica), n), p, faults, digest);
    TraceActions(PassesRun(p, faults), source, n, Lookup(Base(replica), n), p, faults, digest);
  }

  /**
   * A replica folder with no same-named source folder is deleted by the last
   * pass together with everything in it, or one failure is logged; either
   * way nothing is logged about its contents.
   */
  lemma OrphanFolderDeleted(source: map<Name, Node>, replica: Option<Node>, p: Path, faults: set<Fault>,
                            digest: Content -> Digest, n: Name)
    requires !CreateFails(replica, p, faults)
    requires PassesRun(p, faults) == 4
    requires IsDir(Lookup(Base(replica), n)) && !IsDir(Lookup(source, n))
    ensures var q := p + [n];
            var actions := Actions(source, replica, p, faults, digest, n);
            && (FolderDeleted in actions <==> DeleteDirFault(q) !in faults)
            && (FolderDeleteFailed in actions <==> DeleteDirFault(q) in faults)
            && Outcome(source, replica, p, faults, digest, n)
               == (if DeleteDirFault(q) in faults then Lookup(Base(replica), n) else None)
            && forall e :: e in SyncEvents(source, replica, p, faults, digest) ==> !(q <= e.dir)
  {
    TraceEntry(PassesRun(p, faults), source, n, Lookup(Base(replica), n), p, faults, digest);
    TraceActions(PassesRun(p, faults), source, n, Lookup(Base(replica), n), p, faults, digest);
    var q := p + [n];
    forall e | e in SyncEvents(source, replica, p, faults, digest) && q <= e.dir ensures false {
      RecordsBelow(source, replica, p, faults, digest, n, e);
    }
  }

  /**
   * A source subfolder is synchronized by a recursive call on the replica
   * entry as the file passes left it (a same-named replica file deleted);
   * the call's outcome is the final entry, and a failure record is logged
   * exactly when an exception escapes the call.
   */
  lemma SubfolderSynchronized(source: map<Name, Node>, replica: Option<Node>, p: Path, faults: set<Fault>,
                              digest: Content -> Digest, n: Name)
    requires !CreateFails(replica, p, faults)
    requires PassesRun(p, faults) >= 3
    requires IsDir(Lookup(source, n))
    ensures var r := Lookup(Base(replica), n);
            var q := p + [n];
            var found := EntryAfter(2, source, n, r, p, faults, digest);
            && found == (if IsFile(r) && DeleteFileFault(q) !in faults then None else r)
            && Outcome(source, replica, p, faults, digest, n) == SyncTree(source[n].children, found, q, faults, digest)
            && (SubfolderFailed in Actions(source, replica, p, faults, digest, n) <==> !SyncOk(found, q, faults))
  {
    TraceEntry(PassesRun(p, faults), source, n, Lookup(Base(replica), n), p, faults, digest);
    TraceActions(PassesRun(p, faults), source, n, Lookup(Base(replica), n), p, faults, digest);
    TraceEntry(2, source, n, Lookup(Base(replica), n), p, faults, digest);
  }

  /**
   * When the replica folder can be neither found nor created, the call logs
   * that one failure and returns normally without touching anything, so the
   * caller logs no failure for it.
   */
  lemma CreateFailureIsolated(source: map<Name, Node>, replica: Option<Node>, p: Path, faults: set<Fault>,
                              digest: Content -> Digest)
    requires CreateFails(replica, p, faults)
    ensures SyncTree(source, replica, p, faults, digest) == replica
    ensures SyncEvents(source, replica, p, faults, digest) == {ReplicaCreateFailed(p)}
    ensures SyncOk(replica, p, faults)
  {
  }

  /** The failures `f1` and `f2` are the same at `p` and everywhere below it. */
  ghost predicate Agree(f1: set<Fault>, f2: set<Fault>, p: Path)
  {
    forall f: Fault :: p <= f.at ==> (f in f1 <==> f in f2)
  }

  /**
   * What the call at `p` does and logs depends only on the failures at `p`
   * and below: failures elsewhere in the tree do not reach it.
   */
  lemma {:induction false} TreeLocality(source: map<Name, Node>, replica: Option<Node>, p: Path,
                                        f1: set<Fault>, f2: set<Fault>, digest: Content -> Digest)
    requires Agree(f1, f2, p)
    decreases Dir(source), 3
    ensures SyncTree(source, replica, p, f1, digest) == SyncTree(source, replica, p, f2, digest)
    ensures SyncEvents(source, replica, p, f1, digest) == SyncEvents(source, replica, p, f2, digest)
    ensures SyncOk(replica, p, f1) == SyncOk(replica, p, f2)
  {
    assert CreateDirFault(p).at == p;
    assert ListingFault(CopyFiles, p).at == p && ListingFault(DeleteOrphanFiles, p).at == p;
    assert ListingFault(SyncSubfolders, p).at == p && ListingFault(DeleteOrphanFolders, p).at == p;
    if !CreateFails(replica, p, f1) {
      LevelLocality(PassesRun(p, f1), source, Base(replica), p, f1, f2, digest);
    }
  }

  /** The level half of `TreeLocality`, for the first `k` passes. */
  lemma {:induction false} LevelLocality(k: nat, source: map<Name, Node>, base: map<Name, Node>, p: Path,
                                         f1: set<Fault>, f2: set<Fault>, digest: Content -> Digest)
    requires k <= 4
    requires Agree(f1, f2, p)
    decreases Dir(source), 2
    ensures LevelAfter(k, source, base, p, f1, digest) == LevelAfter(k, source, base, p, f2, digest)
    ensures LevelEvents(k, source, base, p, f1, digest) == LevelEvents(k, source, base, p, f2, digest)
  {
    forall n
      ensures EntryAfter(k, source, n, Lookup(base, n), p, f1, digest) == EntryAfter(k, source, n, Lookup(base, n), p, f2, digest)
      ensures EntryEvents(k, source, n, Lookup(base, n), p, f1, digest) == EntryEvents(k, source, n, Lookup(base, n), p, f2, digest)
    {
      EntryLocality(k, source, source, n, Lookup(base, n), p, f1, f2, digest);
      EntryRecordLocality(k, source, source, n, Lookup(base, n), p, f1, f2, digest);
    }
    LookupExtensionality(LevelAfter(k, source, base, p, f1, digest), LevelAfter(k, source, base, p, f2, digest));
  }

  /**
   * What the passes do to entry `n` of `p` depends only on that entry on both
   * sides and on the failures at `p + [n]` and below.
   */
  lemma {:induction false} EntryLocality(k: nat, source1: map<Name, Node>, source2: map<Name, Node>, n: Name, r: Option<Node>,
                                         p: Path, f1: set<Fault>, f2: set<Fault>, digest: Content -> Digest)
    requires k <= 4
    requires Lookup(source1, n) == Lookup(source2, n)
    requires Agree(f1, f2, p + [n])
    decreases Dir(source1), 1, k
    ensures EntryAfter(k, source1, n, r, p, f1, digest) == EntryAfter(k, source2, n, r, p, f2, digest)
  {
    if k > 0 {
      var before := EntryAfter(k - 1, source1, n, r, p, f1, digest);
      EntryLocality(k - 1, source1, source2, n, r, p, f1, f2, digest);
      StepLocality(PassAt(k), source1, source2, n, before, p, f1, f2, digest);
      assert EntryAfter(k, source1, n, r, p, f1, digest) == StepEntry(PassAt(k), source1, n, before, p, f1, digest);
      assert EntryAfter(k, source2, n, r, p, f2, digest) == StepEntry(PassAt(k), source2, n, before, p, f2, digest);
    }
  }

  /** Likewise for what the passes log and report about entry `n`. */
  lemma {:induction false} EntryRecordLocality(k: nat, source1: map<Name, Node>, source2: map<Name, Node>, n: Name, r: Option<Node>,
                                               p: Path, f1: set<Fault>, f2: set<Fault>, digest: Content -> Digest)
    requires k <= 4
    requires Lookup(source1, n) == Lookup(source2, n)
    requires Agree(f1, f2, p + [n])
    decreases Dir(source1), 1, k
    ensures EntryEvents(k, source1, n, r, p, f1, digest) == EntryEvents(k, source2, n, r, p, f2, digest)
    ensures OwnActions(k, source1, n, r, p, f1, digest) == OwnActions(k, source2, n, r, p, f2, digest)
  {
    if k > 0 {
      var before := EntryAfter(k - 1, source1, n, r, p, f1, digest);
      EntryRecordLocality(k - 1, source1, source2, n, r, p, f1, f2, digest);
      EntryLocality(k - 1, source1, source2, n, r, p, f1, f2, digest);
      StepLocality(PassAt(k), source1, source2, n, before, p, f1, f2, digest);
    }
  }

  /** One pass on entry `n`: the same on both sides under the conditions of `EntryLocality`. */
  lemma {:induction false} StepLocality(pass: Pass, source1: map<Name, Node>, source2: map<Name, Node>, n: Name, r: Option<Node>,
                                        p: Path, f1: set<Fault>, f2: set<Fault>, digest: Content -> Digest)
    requires Lookup(source1, n) == Lookup(source2, n)
    requires Agree(f1, f2, p + [n])
    decreases Dir(source1), 0, 0
    ensures StepEntry(pass, source1, n, r, p, f1, digest) == StepEntry(pass, source2, n, r, p, f2, digest)
    ensures StepEvents(pass, source1, n, r, p, f1, digest) == StepEvents(pass, source2, n, r, p, f2, digest)
    ensures StepAction(pass, source1, n, r, p, f1, digest) == StepAction(pass, source2, n, r, p, f2, digest)
  {
    var s := Lookup(source1, n);
    if pass == SyncSubfolders && IsDir(s) {
      TreeLocality(s.value.children, r, p + [n], f1, f2, digest);
    } else {
      LocalStepLocality(pass, source1, source2, n, r, p, f1, f2, digest);
    }
  }

  /** `StepLocality` for the passes that make no recursive call. */
  lemma LocalStepLocality(pass: Pass, source1: map<Name, Node>, source2: map<Name, Node>, n: Name, r: Option<Node>,
                          p: Path, f1: set<Fault>, f2: set<Fault>, digest: Content -> Digest)
    requires Lookup(source1, n) == Lookup(source2, n)
    requires Agree(f1, f2, p + [n])
    requires pass == SyncSubfolders ==> !IsDir(Lookup(source1, n))
    ensures StepEntry(pass, source1, n, r, p, f1, digest) == StepEntry(pass, source2, n, r, p, f2, digest)
    ensures StepEvents(pass, source1, n, r, p, f1, digest) == StepEvents(pass, source2, n, r, p, f2, digest)
    ensures StepAction(pass, source1, n, r, p, f1, digest) == StepAction(pass, source2, n, r, p, f2, digest)
  {
    var q := p + [n];
    match pass
    case CopyFiles =>
      assert ReadSourceFault(q).at == q && ReadReplicaFault(q).at == q && CopyFault(q).at == q;
    case DeleteOrphanFiles =>
      assert DeleteFileFault(q).at == q;
    case SyncSubfolders =>
    case DeleteOrphanFolders =>
      assert DeleteDirFault(q).at == q;
  }

  /**
   * Failures stay with their entry: the outcome of entry `n`, what is logged
   * about it and everything logged below it are the same whatever its
   * siblings hold and whatever fails for them, given the same entry on both
   * sides, the same failures at `p + [n]` and below, and the same number of
   * passes run at `p`.
   */
  lemma SiblingIsolation(source1: map<Name, Node>, replica1: Option<Node>, f1: set<Fault>,
                         source2: map<Name, Node>, replica2: Option<Node>, f2: set<Fault>,
                         p: Path, digest: Content -> Digest, n: Name)
    requires !CreateFails(replica1, p, f1) && !CreateFails(replica2, p, f2)
    requires PassesRun(p, f1) == PassesRun(p, f2)
    requires Lookup(source1, n) == Lookup(source2, n)
    requires Lookup(Base(replica1), n) == Lookup(Base(replica2), n)
    requires Agree(f1, f2, p + [n])
    ensures Outcome(source1, replica1, p, f1, digest, n) == Outcome(source2, replica2, p, f2, digest, n)
    ensures Actions(source1, replica1, p, f1, digest, n) == Actions(source2, replica2, p, f2, digest, n)
    ensures forall e: Record :: p + [n] <= e.dir ==>
              (e in SyncEvents(source1, replica1, p, f1, digest) <==> e in SyncEvents(source2, replica2, p, f2, digest))
  {
    var r := Lookup(Base(replica1), n);
    EntryLocality(PassesRun(p, f1), source1, source2, n, r, p, f1, f2, digest);
    EntryRecordLocality(PassesRun(p, f1), source1, source2, n, r, p, f1, f2, digest);
    EntryLocality(2, source1, source2, n, r, p, f1, f2, digest);
    forall e: Record | p + [n] <= e.dir
      ensures e in SyncEvents(source1, replica1, p, f1, digest) <==> e in SyncEvents(source2, replica2, p, f2, digest)
    {
      RecordsBelow(source1, replica1, p, f1, digest, n, e);
      RecordsBelow(source2, replica2, p, f2, digest, n, e);
      var s := Lookup(source1, n);
      if IsDir(s) {
        TreeLocality(s.value.children, EntryAfter(2, source1, n, r, p, f1, digest), p + [n], f1, f2, digest);
      }
    }
  }

  /** No operation fails at `p` or anywhere below it. */
  ghost predicate FaultFree(faults: set<Fault>, p: Path)
  {
    forall f :: f in faults ==> !(p <= f.at)
  }

  /**
   * The replica listing mirrors the source listing: the same names, a file
   * where the source has a file, with content of the same digest, and a
   * mirroring folder where the source has a folder.
   */
  predicate Mirrors(source: map<Name, Node>, replica: map<Name, Node>, digest: Content -> Digest)
    decreases Dir(source), 0
  {
    && source.Keys == replica.Keys
    && forall n :: n in source ==> NodeMirrors(source[n], replica[n], digest)
  }

  predicate NodeMirrors(s: Node, r: Node, digest: Content -> Digest)
    decreases s, 1
  {
    match s
    case File(content) => r.File? && digest(r.content) == digest(content)
    case Dir(children) => r.Dir? && Mirrors(children, r.children, digest)
  }

  /**
   * The replica has no folder where the source has a file, at any depth of
   * the folders both have: the one shape a single pass cannot repair, since
   * copying onto a folder throws.
   */
  predicate Compatible(source: map<Name, Node>, replica: map<Name, Node>)
    decreases Dir(source)
  {
    forall n :: n in source && n in replica ==>
      && !(source[n].File? && replica[n].Dir?)
      && (source[n].Dir? && replica[n].Dir? ==> Compatible(source[n].children, replica[n].children))
  }

  /** `Compatible` for one entry, either side possibly missing. */
  predicate CompatibleEntry(s: Option<Node>, r: Option<Node>)
  {
    s.Some? && r.Some? ==>
      && !(s.value.File? && r.value.Dir?)
      && (s.value.Dir? && r.value.Dir? ==> Compatible(s.value.children, r.value.children))
  }

  /**
   * A pass in which nothing fails, on a replica that is a folder or missing
   * and has no folder where the source has a file, leaves a replica folder
   * that mirrors the source, and returns normally.
   */
  lemma {:induction false} MirrorAfterPass(source: map<Name, Node>, replica: Option<Node>, p: Path, faults: set<Fault>,
                                           digest: Content -> Digest)
    requires FaultFree(faults, p)
    requires !IsFile(replica)
    requires Compatible(source, Base(replica))
    decreases Dir(source), 1
    ensures IsDir(SyncTree(source, replica, p, faults, digest))
    ensures Mirrors(source, SyncTree(source, replica, p, faults, digest).value.children, digest)
    ensures SyncOk(replica, p, faults)
  {
    assert CreateDirFault(p).at == p;
    assert ListingFault(CopyFiles, p).at == p && ListingFault(DeleteOrphanFiles, p).at == p;
    assert ListingFault(SyncSubfolders, p).at == p && ListingFault(DeleteOrphanFolders, p).at == p;
    var base := Base(replica);
    var level := LevelAfter(4, source, base, p, faults, digest);
    forall n
      ensures n in source ==> n in level && NodeMirrors(source[n], level[n], digest)
      ensures n !in source ==> n !in level
    {
      EntryMirrors(source, n, Lookup(base, n), p, faults, digest);
    }
  }

  /** The entry half of `MirrorAfterPass`. */
  lemma {:induction false} EntryMirrors(source: map<Name, Node>, n: Name, r: Option<Node>, p: Path, faults: set<Fault>,
                                        digest: Content -> Digest)
    requires FaultFree(faults, p + [n])
    requires CompatibleEntry(Lookup(source, n), r)
    decreases Dir(source), 0
    ensures var e := EntryAfter(4, source, n, r, p, faults, digest);
            && (n in source ==> e.Some? && NodeMirrors(source[n], e.value, digest))
            && (n !in source ==> e == None)
  {
    var q := p + [n];
    assert ReadSourceFault(q).at == q && ReadReplicaFault(q).at == q && CopyFault(q).at == q;
    assert DeleteFileFault(q).at == q && DeleteDirFault(q).at == q;
    TraceEntry(4, source, n, r, p, faults, digest);
    var s := Lookup(source, n);
    if IsDir(s) {
      var r2 := StepEntry(DeleteOrphanFiles, source, n, StepEntry(CopyFiles, source, n, r, p, faults, digest), p, faults, digest);
      assert r2 == if IsFile(r) then None else r;
      MirrorAfterPass(s.value.children, r2, q, faults, digest);
    }
  }

  /**
   * A pass in which nothing fails, on a replica folder that mirrors the
   * source, changes nothing and logs nothing.
   */
  lemma {:induction false} IdempotentPass(source: map<Name, Node>, replica: Option<Node>, p: Path, faults: set<Fault>,
                                          digest: Content -> Digest)
    requires FaultFree(faults, p)
    requires IsDir(replica) && Mirrors(source, replica.value.children, digest)
    decreases Dir(source), 1
    ensures SyncTree(source, replica, p, faults, digest) == replica
    ensures SyncEvents(source, replica, p, faults, digest) == {}
    ensures SyncOk(replica, p, faults)
  {
    assert ListingFault(CopyFiles, p).at == p && ListingFault(DeleteOrphanFiles, p).at == p;
    assert ListingFault(SyncSubfolders, p).at == p && ListingFault(DeleteOrphanFolders, p).at == p;
    var base := replica.value.children;
    forall n
      ensures EntryAfter(4, source, n, Lookup(base, n), p, faults, digest) == Lookup(base, n)
      ensures EntryEvents(4, source, n, Lookup(base, n), p, faults, digest) == {}
    {
      EntryIdle(source, n, Lookup(base, n), p, faults, digest);
    }
    LookupExtensionality(LevelAfter(4, source, base, p, faults, digest), base);
    assert LevelEvents(4, source, base, p, faults, digest) == {};
  }

  /** The entry half of `IdempotentPass`. */
  lemma {:induction false} EntryIdle(source: map<Name, Node>, n: Name, r: Option<Node>, p: Path, faults: set<Fault>,
                                     digest: Content -> Digest)
    requires FaultFree(faults, p + [n])
    requires n in source <==> r.Some?
    requires n in source ==> NodeMirrors(source[n], r.value, digest)
    decreases Dir(source), 0
    ensures EntryAfter(4, source, n, r, p, faults, digest) == r
    ensures EntryEvents(4, source, n, r, p, faults, digest) == {}
  {
    var q := p + [n];
    assert ReadSourceFault(q).at == q && ReadReplicaFault(q).at == q;
    TraceEntry(4, source, n, r, p, faults, digest);
    TraceEvents(4, source, n, r, p, faults, digest);
    var s := Lookup(source, n);
    if IsDir(s) {
      IdempotentPass(s.value.children, r, q, faults, digest);
    }
  }

  /**
   * After a pass in which nothing fails, on a replica that is a folder or
   * missing, no replica folder stands where the source has a file.
   */
  lemma {:induction false} PassLeavesCompatible(source: map<Name, Node>, replica: Option<Node>, p: Path, faults: set<Fault>,
                                                digest: Content -> Digest)
    requires FaultFree(faults, p)
    requires !IsFile(replica)
    decreases Dir(source), 1
    ensures IsDir(SyncTree(source, replica, p, faults, digest))
    ensures Compatible(source, SyncTree(source, replica, p, faults, digest).value.children)
  {
    assert CreateDirFault(p).at == p;
    assert ListingFault(CopyFiles, p).at == p && ListingFault(DeleteOrphanFiles, p).at == p;
    assert ListingFault(SyncSubfolders, p).at == p && ListingFault(DeleteOrphanFolders, p).at == p;
    var base := Base(replica);
    var level := LevelAfter(4, source, base, p, faults, digest);
    forall n | n in source && n in level
      ensures !(source[n].File? && level[n].Dir?)
      ensures source[n].Dir? && level[n].Dir? ==> Compatible(source[n].children, level[n].children)
    {
      EntryCompatible(source, n, Lookup(base, n), p, faults, digest);
      assert Lookup(level, n) == Some(level[n]);
    }
  }

  /** The entry half of `PassLeavesCompatible`. */
  lemma {:induction false} EntryCompatible(source: map<Name, Node>, n: Name, r: Option<Node>, p: Path, faults: set<Fault>,
                                           digest: Content -> Digest)
    requires FaultFree(faults, p + [n])
    decreases Dir(source), 0
    ensures CompatibleEntry(Lookup(source, n), EntryAfter(4, source, n, r, p, faults, digest))
  {
    var q := p + [n];
    assert CopyFault(q).at == q && DeleteFileFault(q).at == q && DeleteDirFault(q).at == q;
    TraceEntry(4, source, n, r, p, faults, digest);
    var s := Lookup(source, n);
    if IsDir(s) {
      var r2 := StepEntry(DeleteOrphanFiles, source, n, StepEntry(CopyFiles, source, n, r, p, faults, digest), p, faults, digest);
      assert r2 == if IsFile(r) then None else r;
      PassLeavesCompatible(s.value.children, r2, q, faults, digest);
    }
  }

  /**
   * Two passes in which nothing fails leave a replica that mirrors the
   * source, whatever the replica held before, unless a file was in the way
   * of the replica folder itself.
   */
  lemma MirrorAfterTwoPasses(source: map<Name, Node>, replica: Option<Node>, p: Path, f1: set<Fault>, f2: set<Fault>,
                             digest: Content -> Digest)
    requires FaultFree(f1, p) && FaultFree(f2, p)
    requires !IsFile(replica)
    ensures var once := SyncTree(source, replica, p, f1, digest);
            var twice := SyncTree(source, once, p, f2, digest);
            IsDir(twice) && Mirrors(source, twice.value.children, digest)
  {
    PassLeavesCompatible(source, replica, p, f1, digest);
    MirrorAfterPass(source, SyncTree(source, replica, p, f1, digest), p, f2, digest);
  }

  /**
   * After a pass in which nothing fails has made the replica mirror the
   * source, the next such pass changes nothing and logs nothing.
   */
  lemma QuiescentSecondPass(source: map<Name, Node>, replica: Option<Node>, p: Path, f1: set<Fault>, f2: set<Fault>,
                            digest: Content -> Digest)
    requires FaultFree(f1, p) && FaultFree(f2, p)
    requires !IsFile(replica) && Compatible(source, Base(replica))
    ensures var once := SyncTree(source, replica, p, f1, digest);
            && SyncTree(source, once, p, f2, digest) == once
            && SyncEvents(source, once, p, f2, digest) == {}
  {
    MirrorAfterPass(source, replica, p, f1, digest);
    IdempotentPass(source, SyncTree(source, replica, p, f1, digest), p, f2, digest);
  }

  /**
   * A replica folder where the source has a file is not repaired by a pass
   * without failures: the file cannot be copied onto the folder, and the
   * folder is deleted afterwards.
   */
  lemma BlockedByFolder(digest: Content -> Digest)
    ensures var source := map["a" := File([])];
            var replica := Some(Dir(map["a" := Dir(map[])]));
            && Outcome(source, replica, [], {}, digest, "a") == None
            && Actions(source, replica, [], {}, digest, "a") == {CopyFailed, FolderDeleted}
  {
    var source := map["a" := File([])];
    TraceEntry(4, source, "a", Some(Dir(map[])), [], {}, digest);
    TraceActions(4, source, "a", Some(Dir(map[])), [], {}, digest);
  }

  /**
   * So the pass after `BlockedByFolder` is not quiet: it copies the file and
   * logs the copy.
   */
  lemma FolderInTheWayOfFile(digest: Content -> Digest)
    ensures var source := map["a" := File([])];
            var replica := Some(Dir(map["a" := Dir(map[])]));
            var once := SyncTree(source, replica, [], {}, digest);
            && Outcome(source, once, [], {}, digest, "a") == Some(File([]))
            && Actions(source, once, [], {}, digest, "a") == {Copied}
            && Item([], "a", Copied) in SyncEvents(source, once, [], {}, digest)
  {
    var source := map["a" := File([])];
    var replica := Some(Dir(map["a" := Dir(map[])]));
    var none: set<Fault> := {};
    BlockedByFolder(digest);
    var once := SyncTree(source, replica, [], none, digest);
    assert Lookup(Base(once), "a") == None;
    TraceEntry(4, source, "a", None, [], none, digest);
    TraceActions(4, source, "a", None, [], none, digest);
    ItemRecords(source, once, [], none, digest, "a", Copied);
  }
}
