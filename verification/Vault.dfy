/** A vault on disk, and the tree of entries that a walk of it yields. */
module Vault {
  import opened Wrappers
  import opened Keys
  import opened Text

  /** What one `symlink_metadata` call reports; either time may be unavailable. */
  datatype Meta = Meta(size: nat, modified: Option<int>, created: Option<int>)

  datatype Node = Dir | File(meta: Meta, bytes: seq<Byte>) | Symlink(meta: Meta)

  /** One entry of the index. Anything that is not a directory is indexed as a file. */
  datatype Entry = DirEntry | FileEntry(size: nat, mtime: Option<int>, ctime: Option<int>)

  type Tree = map<string, Entry>

  function Parent(p: Path): Path {
    if p == [] then [] else p[..|p| - 1]
  }

  /** The disk is parent-closed: what contains something is a directory. */
  ghost predicate ValidDisk(d: map<Path, Node>) {
    && [] in d && d[[]] == Dir
    && forall p {:trigger Parent(p)} :: p in d ==> Parent(p) in d && d[Parent(p)] == Dir
  }

  type Disk = d: map<Path, Node> | ValidDisk(d) witness map[[] := Dir]

  function EntryOf(n: Node): Entry {
    match n
    case Dir => DirEntry
    case File(m, _) => FileEntry(m.size, m.modified, if m.created.Some? then m.created else m.modified)
    case Symlink(m) => FileEntry(m.size, m.modified, if m.created.Some? then m.created else m.modified)
  }

  function Get(t: Tree, k: string): Option<Entry> {
    if k in t then Some(t[k]) else None
  }

  /** `symlink_metadata` on a vault-relative path. */
  function StatOf(d: Disk, p: Path): Option<Entry> {
    if p in d then Some(EntryOf(d[p])) else None
  }

  /** The tree of the whole disk: one key for every node but the root. */
  ghost function TreeOf(d: Disk): Tree {
    TreeKeysDistinct(d);
    map p | p in d && p != [] :: Join(p) := EntryOf(d[p])
  }

  lemma TreeKeysDistinct(d: Disk)
    ensures forall p, q :: p in d && q in d && p != q ==> Join(p) != Join(q)
  {
    forall p, q | p in d && q in d && Join(p) == Join(q) ensures p == q {
      JoinInjective(p, q);
    }
  }

  /** A tree in which every ancestor of a key is a key. */
  ghost predicate Closed(t: Tree) {
    forall rel, k :: k in t && Under(rel, k) ==> rel in t
  }

  lemma TreeAt(d: Disk, p: Path)
    requires p != []
    ensures Get(TreeOf(d), Join(p)) == StatOf(d, p)
  {
    TreeKeysDistinct(d);
    if Join(p) in TreeOf(d) {
      var q: Path :| q in d && q != [] && Join(q) == Join(p);
      JoinInjective(p, q);
    }
  }

  /** An entry says of a node whether it is a directory, and otherwise how large it is, when it was
      modified, and when it was created: without a creation time, the time of modification. */
  predicate Describes(e: Entry, n: Node) {
    if n.Dir? then e.DirEntry?
    else
      && e.FileEntry? && e.size == n.meta.size && e.mtime == n.meta.modified
      && (n.meta.created.Some? ==> e.ctime == n.meta.created)
      && (n.meta.created.None? ==> e.ctime == n.meta.modified)
  }

  /** The tree has one key for every node of the disk but the root, which describes it, and no
      other keys. */
  ghost predicate Lists(t: Tree, d: Disk) {
    && (forall p :: p in d && p != [] ==> Join(p) in t && Describes(t[Join(p)], d[p]))
    && (forall k :: k in t ==> exists p :: p in d && p != [] && Join(p) == k)
  }

  lemma TreeLists(d: Disk)
    ensures Lists(TreeOf(d), d)
  {
    forall p | p in d && p != [] ensures Join(p) in TreeOf(d) && Describes(TreeOf(d)[Join(p)], d[p]) {
      TreeAt(d, p);
    }
  }

  lemma ListsAt(t: Tree, d: Disk, k: string)
    requires Lists(t, d)
    ensures Get(t, k) == Get(TreeOf(d), k)
  {
    if p: Path :| p in d && p != [] && Join(p) == k {
      TreeAt(d, p);
    }
  }

  /** Exactly one tree does. */
  lemma ListsExactly(t: Tree, d: Disk)
    ensures Lists(t, d) <==> t == TreeOf(d)
  {
    TreeLists(d);
    if Lists(t, d) {
      forall k ensures Get(t, k) == Get(TreeOf(d), k) {
        ListsAt(t, d, k);
      }
      SameTree(t, TreeOf(d));
    }
  }

  lemma SameTree(t: Tree, u: Tree)
    requires forall k :: Get(t, k) == Get(u, k)
    ensures t == u
  {
    forall k ensures k in t <==> k in u {
      assert Get(t, k) == Get(u, k);
    }
    forall k | k in t ensures t[k] == u[k] {
      assert Get(t, k) == Get(u, k);
    }
  }

  lemma {:induction false} AncestorOnDisk(d: Disk, p: Path, q: Path)
    requires p in d && q < p
    ensures q in d && d[q] == Dir
  {
    var parent := Parent(p);
    if q == parent {
    } else {
      assert q < parent;
      AncestorOnDisk(d, parent, q);
    }
  }

  /** Whatever stands above a key of a walked disk is a directory of it. */
  lemma TreeOfAncestors(d: Disk, rel: string, k: string)
    requires k in TreeOf(d) && Under(rel, k)
    ensures Get(TreeOf(d), rel) == Some(DirEntry)
  {
    var q: Path :| q in d && q != [] && Join(q) == k;
    UnderSplits(rel, q);
    var p: Path := q[..|Split(rel, '/')|];
    assert p == Split(rel, '/');
    AncestorOnDisk(d, q, p);
    TreeAt(d, p);
  }

  lemma TreeOfClosed(d: Disk)
    ensures Closed(TreeOf(d))
  {
    forall rel, k | k in TreeOf(d) && Under(rel, k) ensures rel in TreeOf(d) {
      TreeOfAncestors(d, rel, k);
    }
  }
}
