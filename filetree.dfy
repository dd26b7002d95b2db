/**
 * The file system as a value: a directory is a finite map from entry names
 * to nodes, a file is its byte content.  Paths are sequences of names,
 * relative to the root of the tree they are used in.
 */
module FileTree {

  newtype Byte = b: int | 0 <= b < 256

  type Content = seq<Byte>

  /** A content digest (the synchronizer uses a 128-bit MD5 digest). */
  type Digest = seq<Byte>

  type Name = string

  type Path = seq<Name>

  datatype Node = File(content: Content) | Dir(children: map<Name, Node>)

  datatype Option<T> = None | Some(value: T)

  /** The entry `n` of a directory listing, if there is one. */
  function Lookup(m: map<Name, Node>, n: Name): (r: Option<Node>)
    ensures r.Some? <==> n in m
    ensures r.Some? ==> r.value == m[n]
  {
    if n in m then Some(m[n]) else None
  }

  /** `File.Exists`: the path names a regular file. */
  predicate IsFile(o: Option<Node>)
  {
    o.Some? && o.value.File?
  }

  /** `Directory.Exists`: the path names a directory. */
  predicate IsDir(o: Option<Node>)
  {
    o.Some? && o.value.Dir?
  }

  /** `Directory.GetFiles`: the names of the regular files directly in a directory. */
  function FileNames(m: map<Name, Node>): (names: set<Name>)
    ensures forall n :: n in names <==> IsFile(Lookup(m, n))
  {
    set n | n in m && m[n].File?
  }

  /** `Directory.GetDirectories`: the names of the subdirectories directly in a directory. */
  function DirNames(m: map<Name, Node>): (names: set<Name>)
    ensures forall n :: n in names <==> IsDir(Lookup(m, n))
  {
    set n | n in m && m[n].Dir?
  }

  /** Two prefixes of one path are prefixes of each other, the shorter of the longer. */
  lemma PrefixesOfOnePath(a: Path, b: Path, c: Path)
    requires a <= c && b <= c
    ensures |a| <= |b| ==> a <= b
    ensures |b| <= |a| ==> b <= a
  {
    if |a| <= |b| {
      assert a == c[..|a|] == b[..|a|];
    } else {
      assert b == c[..|b|] == a[..|b|];
    }
  }

  /** Two directory listings that agree on every name are the same listing. */
  lemma LookupExtensionality(a: map<Name, Node>, b: map<Name, Node>)
    requires forall n :: Lookup(a, n) == Lookup(b, n)
    ensures a == b
  {
    assert a.Keys == b.Keys by {
      forall n ensures n in a <==> n in b {
        assert Lookup(a, n).Some? == Lookup(b, n).Some?;
      }
    }
    forall n | n in a ensures a[n] == b[n] {
      assert Lookup(a, n) == Lookup(b, n);
    }
  }
}
