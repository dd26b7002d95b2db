/**
 * One pass as the code runs it: a loop over a directory listing that handles
 * one name at a time.  `PassMap` and `PassEvents` describe the replica
 * listing and the logged records once the names in `done` are handled; the
 * lemmas here connect a finished pass to the entry-by-entry description in
 * SyncSpec and say how logs in pass order are put together.
 */
module SyncPasses {
  import opened FileTree
  import opened SyncSpec

  /** The listing a pass walks: source files, replica files, source subfolders, replica subfolders. */
  function Domain(pass: Pass, source: map<Name, Node>, replica: map<Name, Node>): set<Name>
  {
    match pass
    case CopyFiles => FileNames(source)
    case DeleteOrphanFiles => FileNames(replica)
    case SyncSubfolders => DirNames(source)
    case DeleteOrphanFolders => DirNames(replica)
  }

  /** The replica listing once `pass` has handled the names in `done`. */
  function PassMap(pass: Pass, source: map<Name, Node>, replica: map<Name, Node>, p: Path, faults: set<Fault>,
                   digest: Content -> Digest, done: set<Name>): (m: map<Name, Node>)
    ensures forall n {:trigger Lookup(m, n)} :: n in done ==> Lookup(m, n) == StepEntry(pass, source, n, Lookup(replica, n), p, faults, digest)
    ensures forall n {:trigger Lookup(m, n)} :: n !in done ==> Lookup(m, n) == Lookup(replica, n)
  {
    var m := map n | n in replica.Keys + done && (n in done ==> StepEntry(pass, source, n, Lookup(replica, n), p, faults, digest).Some?)
      :: if n in done then StepEntry(pass, source, n, Lookup(replica, n), p, faults, digest).value else replica[n];
    assert forall n :: n in done && n !in replica ==> n in m || StepEntry(pass, source, n, None, p, faults, digest) == None;
    m
  }

  /** The records `pass` has logged once it has handled the names in `done`. */
  function PassEvents(pass: Pass, source: map<Name, Node>, replica: map<Name, Node>, p: Path, faults: set<Fault>,
                      digest: Content -> Digest, done: set<Name>): set<Record>
  {
    set n, e | n in done && e in StepEvents(pass, source, n, Lookup(replica, n), p, faults, digest) :: e
  }

  /** Handling one more name changes only that name's entry. */
  lemma PassMapStep(pass: Pass, source: map<Name, Node>, replica: map<Name, Node>, p: Path, faults: set<Fault>,
                    digest: Content -> Digest, done: set<Name>, n: Name)
    requires n !in done
    ensures var v := StepEntry(pass, source, n, Lookup(replica, n), p, faults, digest);
            var m := PassMap(pass, source, replica, p, faults, digest, done);
            && PassMap(pass, source, replica, p, faults, digest, done + {n}) == (if v.Some? then m[n := v.value] else m - {n})
            && (v == Lookup(replica, n) ==> PassMap(pass, source, replica, p, faults, digest, done + {n}) == m)
  {
    var v := StepEntry(pass, source, n, Lookup(replica, n), p, faults, digest);
    var m := PassMap(pass, source, replica, p, faults, digest, done);
    var m' := if v.Some? then m[n := v.value] else m - {n};
    forall x ensures Lookup(PassMap(pass, source, replica, p, faults, digest, done + {n}), x) == Lookup(m', x) {
    }
    LookupExtensionality(PassMap(pass, source, replica, p, faults, digest, done + {n}), m');
    if v == Lookup(replica, n) {
      forall x ensures Lookup(m', x) == Lookup(m, x) {
      }
      LookupExtensionality(m', m);
    }
  }

  /** Handling one more name adds exactly that name's records. */
  lemma PassEventsStep(pass: Pass, source: map<Name, Node>, replica: map<Name, Node>, p: Path, faults: set<Fault>,
                       digest: Content -> Digest, done: set<Name>, n: Name)
    ensures PassEvents(pass, source, replica, p, faults, digest, done + {n})
         == PassEvents(pass, source, replica, p, faults, digest, done) + StepEvents(pass, source, n, Lookup(replica, n), p, faults, digest)
  {
    var before := PassEvents(pass, source, replica, p, faults, digest, done);
    var step := StepEvents(pass, source, n, Lookup(replica, n), p, faults, digest);
    var after := PassEvents(pass, source, replica, p, faults, digest, done + {n});
    forall e | e in before + step ensures e in after {
      if e in before {
        var m :| m in done && e in StepEvents(pass, source, m, Lookup(replica, m), p, faults, digest);
        assert m in done + {n};
      } else {
        assert n in done + {n};
      }
    }
  }

  /** The record a pass logs about entry `n` itself, as a log fragment. */
  function Logged(p: Path, n: Name, a: Option<Action>): (log: seq<Record>)
    ensures |log| <= 1
    ensures forall e :: e in log ==> a.Some? && e == Item(p, n, a.value)
  {
    if a.Some? then [Item(p, n, a.value)] else []
  }

  /**
   * One name handled by a pass that does not recurse: the log gains that
   * name's record, if any, and keeps only records of this pass about `p`.
   */
  lemma ItemStep(pass: Pass, source: map<Name, Node>, replica: map<Name, Node>, p: Path, faults: set<Fault>,
                 digest: Content -> Digest, done: set<Name>, n: Name, log: seq<Record>)
    requires pass != SyncSubfolders
    requires Elements(log) == PassEvents(pass, source, replica, p, faults, digest, done)
    requires forall e :: e in log ==> e.dir == p && Phase(p, e) == PassNumber(pass)
    ensures var a := StepAction(pass, source, n, Lookup(replica, n), p, faults, digest);
            && Elements(log + Logged(p, n, a)) == PassEvents(pass, source, replica, p, faults, digest, done + {n})
            && (forall e :: e in log + Logged(p, n, a) ==> e.dir == p && Phase(p, e) == PassNumber(pass))
  {
    var a := StepAction(pass, source, n, Lookup(replica, n), p, faults, digest);
    PassEventsStep(pass, source, replica, p, faults, digest, done, n);
    assert Elements(log + Logged(p, n, a)) == Elements(log) + Elements(Logged(p, n, a));
    assert StepEvents(pass, source, n, Lookup(replica, n), p, faults, digest) == Elements(Logged(p, n, a));
    forall e | e in Logged(p, n, a) ensures e.dir == p && Phase(p, e) == PassNumber(pass) {
      match pass
      case CopyFiles =>
      case DeleteOrphanFiles =>
      case DeleteOrphanFolders =>
    }
  }

  /**
   * One source subfolder handled by the subfolder pass: the log gains
   * everything the recursive call logged, then the failure record if the call
   * threw, and stays in order at every level.
   */
  lemma SubfolderStep(source: map<Name, Node>, replica: map<Name, Node>, p: Path, faults: set<Fault>,
                      digest: Content -> Digest, done: set<Name>, n: Name, log: seq<Record>, inner: seq<Record>)
    requires n !in done && IsDir(Lookup(source, n))
    requires Elements(log) == PassEvents(SyncSubfolders, source, replica, p, faults, digest, done)
    requires forall q :: OrderedAt(log, q)
    requires forall e :: e in log ==> p <= e.dir && Phase(p, e) == 3 && (e.dir != p ==> e.dir[|p|] in done)
    requires Elements(inner) == SyncEvents(source[n].children, Lookup(replica, n), p + [n], faults, digest)
    requires forall q :: OrderedAt(inner, q)
    ensures var a := StepAction(SyncSubfolders, source, n, Lookup(replica, n), p, faults, digest);
            var log' := log + inner + Logged(p, n, a);
            && Elements(log') == PassEvents(SyncSubfolders, source, replica, p, faults, digest, done + {n})
            && (forall q :: OrderedAt(log', q))
            && (forall e :: e in log' ==> p <= e.dir && Phase(p, e) == 3 && (e.dir != p ==> e.dir[|p|] in done + {n}))
  {
    var a := StepAction(SyncSubfolders, source, n, Lookup(replica, n), p, faults, digest);
    SubfolderEvents(source, replica, p, faults, digest, done, n, log, inner);
    forall e | e in inner ensures p + [n] <= e.dir {
      assert e in Elements(inner);
    }
    SubfolderOrder(log, inner, p, n, done, a);
  }

  /** The record half of `SubfolderStep`. */
  lemma SubfolderEvents(source: map<Name, Node>, replica: map<Name, Node>, p: Path, faults: set<Fault>,
                        digest: Content -> Digest, done: set<Name>, n: Name, log: seq<Record>, inner: seq<Record>)
    requires IsDir(Lookup(source, n))
    requires Elements(log) == PassEvents(SyncSubfolders, source, replica, p, faults, digest, done)
    requires Elements(inner) == SyncEvents(source[n].children, Lookup(replica, n), p + [n], faults, digest)
    ensures var a := StepAction(SyncSubfolders, source, n, Lookup(replica, n), p, faults, digest);
            Elements(log + inner + Logged(p, n, a)) == PassEvents(SyncSubfolders, source, replica, p, faults, digest, done + {n})
  {
    var a := StepAction(SyncSubfolders, source, n, Lookup(replica, n), p, faults, digest);
    PassEventsStep(SyncSubfolders, source, replica, p, faults, digest, done, n);
    assert StepEvents(SyncSubfolders, source, n, Lookup(replica, n), p, faults, digest) == Elements(inner) + Elements(Logged(p, n, a));
    assert Elements(log + inner + Logged(p, n, a)) == Elements(log) + Elements(inner) + Elements(Logged(p, n, a));
  }

  /** The order half of `SubfolderStep`: the subfolder's own failure record, if any, comes after its records. */
  lemma SubfolderOrder(log: seq<Record>, inner: seq<Record>, p: Path, n: Name, done: set<Name>, a: Option<Action>)
    requires a == None || a == Some(SubfolderFailed)
    requires n !in done
    requires forall q :: OrderedAt(log, q)
    requires forall e :: e in log ==> p <= e.dir && Phase(p, e) == 3 && (e.dir != p ==> e.dir[|p|] in done)
    requires forall q :: OrderedAt(inner, q)
    requires forall e :: e in inner ==> p + [n] <= e.dir
    ensures var log' := log + inner + Logged(p, n, a);
            && (forall q :: OrderedAt(log', q))
            && (forall e :: e in log' ==> p <= e.dir && Phase(p, e) == 3 && (e.dir != p ==> e.dir[|p|] in done + {n}))
  {
    AppendSubfolder(log, inner, p, n, done);
    if a.Some? {
      AppendSubfolderFailure(log + inner, p, n);
    } else {
      assert log + inner + Logged(p, n, a) == log + inner;
    }
  }

  /** A name outside the listing a pass walks is neither changed nor logged by it. */
  lemma OutsideDomain(pass: Pass, source: map<Name, Node>, replica: map<Name, Node>, p: Path, faults: set<Fault>,
                      digest: Content -> Digest, n: Name)
    requires n !in Domain(pass, source, replica)
    ensures StepEntry(pass, source, n, Lookup(replica, n), p, faults, digest) == Lookup(replica, n)
    ensures StepEvents(pass, source, n, Lookup(replica, n), p, faults, digest) == {}
  {
    match pass
    case CopyFiles =>
      assert !IsFile(Lookup(source, n));
    case DeleteOrphanFiles =>
      assert !IsFile(Lookup(replica, n));
    case SyncSubfolders =>
      assert !IsDir(Lookup(source, n));
    case DeleteOrphanFolders =>
      assert !IsDir(Lookup(replica, n));
  }

  /** The pass after the first `k` takes the listing to the one after `k + 1` passes. */
  lemma NextPassLevel(k: nat, source: map<Name, Node>, replica: map<Name, Node>, p: Path, faults: set<Fault>, digest: Content -> Digest)
    requires k < 4
    ensures var level := LevelAfter(k, source, replica, p, faults, digest);
            var pass := PassAt(k + 1);
            PassMap(pass, source, level, p, faults, digest, Domain(pass, source, level))
              == LevelAfter(k + 1, source, replica, p, faults, digest)
  {
    var level := LevelAfter(k, source, replica, p, faults, digest);
    var pass := PassAt(k + 1);
    var m := PassMap(pass, source, level, p, faults, digest, Domain(pass, source, level));
    forall n ensures Lookup(m, n) == Lookup(LevelAfter(k + 1, source, replica, p, faults, digest), n) {
      if n !in Domain(pass, source, level) {
        OutsideDomain(pass, source, level, p, faults, digest, n);
      }
    }
    LookupExtensionality(m, LevelAfter(k + 1, source, replica, p, faults, digest));
  }

  /** The records of the first `k + 1` passes are those of the first `k` and those of pass `k + 1`. */
  lemma NextPassEvents(k: nat, source: map<Name, Node>, replica: map<Name, Node>, p: Path, faults: set<Fault>, digest: Content -> Digest)
    requires k < 4
    ensures var level := LevelAfter(k, source, replica, p, faults, digest);
            var pass := PassAt(k + 1);
            LevelEvents(k + 1, source, replica, p, faults, digest)
              == LevelEvents(k, source, replica, p, faults, digest)
                 + PassEvents(pass, source, level, p, faults, digest, Domain(pass, source, level))
  {
    var level := LevelAfter(k, source, replica, p, faults, digest);
    var pass := PassAt(k + 1);
    var names := source.Keys + replica.Keys;
    var next := LevelEvents(k + 1, source, replica, p, faults, digest);
    var prev := LevelEvents(k, source, replica, p, faults, digest);
    var passEvents := PassEvents(pass, source, level, p, faults, digest, Domain(pass, source, level));
    forall e | e in next ensures e in prev + passEvents {
      var n :| n in names && e in EntryEvents(k + 1, source, n, Lookup(replica, n), p, faults, digest);
      if e !in EntryEvents(k, source, n, Lookup(replica, n), p, faults, digest) {
        assert e in StepEvents(pass, source, n, Lookup(level, n), p, faults, digest);
        if n !in Domain(pass, source, level) {
          OutsideDomain(pass, source, level, p, faults, digest, n);
        }
      }
    }
    forall e | e in prev + passEvents ensures e in next {
      if e in prev {
        var n :| n in names && e in EntryEvents(k, source, n, Lookup(replica, n), p, faults, digest);
        assert e in EntryEvents(k + 1, source, n, Lookup(replica, n), p, faults, digest);
      } else {
        var n :| n in Domain(pass, source, level) && e in StepEvents(pass, source, n, Lookup(level, n), p, faults, digest);
        assert n in names;
        assert e in EntryEvents(k + 1, source, n, Lookup(replica, n), p, faults, digest);
      }
    }
  }

  /** Two logs in the pass order of `q` whose records under `q` are in order across them. */
  lemma ConcatOrdered(a: seq<Record>, b: seq<Record>, q: Path)
    requires OrderedAt(a, q) && OrderedAt(b, q)
    requires forall i, j :: 0 <= i < |a| && 0 <= j < |b| && q <= a[i].dir && q <= b[j].dir ==> Phase(q, a[i]) <= Phase(q, b[j])
    ensures OrderedAt(a + b, q)
  {
    var ab := a + b;
    forall i, j | 0 <= i < j < |ab| && q <= ab[i].dir && q <= ab[j].dir ensures Phase(q, ab[i]) <= Phase(q, ab[j]) {
      if j < |a| {
        assert ab[i] == a[i] && ab[j] == a[j];
      } else if i >= |a| {
        assert ab[i] == b[i - |a|] && ab[j] == b[j - |a|];
      } else {
        assert ab[i] == a[i] && ab[j] == b[j - |a|];
      }
    }
  }

  /** Records logged at `p` about its entries, all by one pass, are in order at every level. */
  lemma FlatOrdered(log: seq<Record>, p: Path)
    requires forall e :: e in log ==> e.dir == p
    requires forall i, j :: 0 <= i < |log| && 0 <= j < |log| ==> Phase(p, log[i]) == Phase(p, log[j])
    ensures forall q :: OrderedAt(log, q)
  {
    forall q ensures OrderedAt(log, q) {
      forall i, j | 0 <= i < j < |log| && q <= log[i].dir && q <= log[j].dir ensures Phase(q, log[i]) <= Phase(q, log[j]) {
        assert log[i] in log && log[j] in log;
      }
    }
  }

  /**
   * Appending the records of a later pass at level `p` to those of the earlier
   * passes keeps the log in order at every level, as long as one of the two
   * parts holds only records about the entries of `p`.
   */
  lemma AppendPass(a: seq<Record>, b: seq<Record>, p: Path, m: nat)
    requires forall q :: OrderedAt(a, q)
    requires forall q :: OrderedAt(b, q)
    requires forall e :: e in a ==> p <= e.dir && Phase(p, e) <= m
    requires forall e :: e in b ==> p <= e.dir && m <= Phase(p, e)
    requires (forall e :: e in a ==> e.dir == p) || (forall e :: e in b ==> e.dir == p)
    ensures forall q :: OrderedAt(a + b, q)
  {
    forall q ensures OrderedAt(a + b, q) {
      forall i, j | 0 <= i < |a| && 0 <= j < |b| && q <= a[i].dir && q <= b[j].dir ensures Phase(q, a[i]) <= Phase(q, b[j]) {
        assert a[i] in a && b[j] in b;
        PrefixesOfOnePath(q, p, a[i].dir);
        if q != p && q <= p {
          assert a[i].dir != q && b[j].dir != q;
        }
      }
      ConcatOrdered(a, b, q);
    }
  }

  /**
   * Appending everything one recursive call logged for subfolder `n` of `p`
   * to the records of the subfolders before it keeps the log in order at
   * every level: each subfolder's records lie in their own part of the tree.
   */
  lemma AppendSubfolder(a: seq<Record>, c: seq<Record>, p: Path, n: Name, done: set<Name>)
    requires forall q :: OrderedAt(a, q)
    requires forall q :: OrderedAt(c, q)
    requires n !in done
    requires forall e :: e in a ==> p <= e.dir && Phase(p, e) == 3 && (e.dir != p ==> e.dir[|p|] in done)
    requires forall e :: e in c ==> p + [n] <= e.dir
    ensures forall q :: OrderedAt(a + c, q)
    ensures forall e :: e in a + c ==> p <= e.dir && Phase(p, e) == 3 && (e.dir != p ==> e.dir[|p|] in done + {n})
  {
    forall q ensures OrderedAt(a + c, q) {
      forall i, j | 0 <= i < |a| && 0 <= j < |c| && q <= a[i].dir && q <= c[j].dir ensures Phase(q, a[i]) <= Phase(q, c[j]) {
        assert a[i] in a && c[j] in c;
        PrefixesOfOnePath(q, p, c[j].dir);
        if q <= p && q != p {
          assert a[i].dir != q && c[j].dir != q;
        }
      }
      ConcatOrdered(a, c, q);
    }
    forall e | e in a + c ensures p <= e.dir && Phase(p, e) == 3 && (e.dir != p ==> e.dir[|p|] in done + {n}) {
      if e in c {
        assert e.dir[|p|] == (p + [n])[|p|];
      }
    }
  }

  /** Appending the failure record of subfolder `n` of `p` after its records keeps the log in order. */
  lemma AppendSubfolderFailure(a: seq<Record>, p: Path, n: Name)
    requires forall q :: OrderedAt(a, q)
    requires forall e :: e in a ==> p <= e.dir && Phase(p, e) == 3
    ensures forall q :: OrderedAt(a + [Item(p, n, SubfolderFailed)], q)
  {
    var f := [Item(p, n, SubfolderFailed)];
    forall q ensures OrderedAt(a + f, q) {
      forall i, j | 0 <= i < |a| && 0 <= j < |f| && q <= a[i].dir && q <= f[j].dir ensures Phase(q, a[i]) <= Phase(q, f[j]) {
        assert a[i] in a;
        if q != p {
          assert a[i].dir != q;
        }
      }
      ConcatOrdered(a, f, q);
    }
  }
}
