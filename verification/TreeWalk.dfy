/** The parallel walk that builds a tree, and the sequential walk it speeds up. */
module TreeWalk {
  import opened Wrappers
  import opened Keys
  import opened Vault

  /** Work in flight: entries still to be stat'ed and inserted, directories still to be read.
      Worker threads take from either set in any order; `acc` is the mutex-guarded tree. */
  datatype Walk = Walk(acc: Tree, visit: set<Path>, list: set<Path>)

  function StartWalk(): Walk { Walk(map[], {}, {[]}) }

  function Children(d: Disk, q: Path): set<Path> {
    set c | c in d && c != [] && Parent(c) == q
  }

  /** One visitor call: stat the entry and insert it; an entry that is gone is skipped. */
  function VisitStep(d: Disk, w: Walk, p: Path): Walk {
    var acc := match StatOf(d, p) case Some(e) => w.acc[Join(p) := e] case None => w.acc;
    w.(acc := acc, visit := w.visit - {p})
  }

  /** One `readdir`: every child becomes a visit, every child directory is read in turn. */
  function ListStep(d: Disk, w: Walk, q: Path): Walk {
    var cs := Children(d, q);
    w.(visit := w.visit + cs, list := w.list - {q} + set c | c in cs && d[c] == Dir)
  }

  predicate Ahead(list: set<Path>, p: Path) {
    exists q :: q in list && q < p
  }

  /** What a walk has not got wrong: apart from the keys in `stale`, every node on disk is
      recorded as it is now or still lies ahead, and nothing else is recorded. */
  ghost predicate Covers(d: Disk, w: Walk, stale: set<string>) {
    && [] !in w.visit
    && (forall p <- d :: p != [] && Join(p) !in stale ==>
          p in w.visit || Get(w.acc, Join(p)) == StatOf(d, p) || Ahead(w.list, p))
    && (forall k :: k in w.acc && k !in stale ==> k in TreeOf(d))
  }

  lemma StartCovers(d: Disk, stale: set<string>)
    ensures Covers(d, StartWalk(), stale)
  {
  }

  lemma VisitCovers(d: Disk, w: Walk, stale: set<string>, p: Path)
    requires Covers(d, w, stale) && p in w.visit
    ensures Covers(d, VisitStep(d, w, p), stale)
  {
    TreeKeysDistinct(d);
    TreeAt(d, p);
    var w' := VisitStep(d, w, p);
    forall q | q in d && q != [] && Join(q) !in stale
      ensures q in w'.visit || Get(w'.acc, Join(q)) == StatOf(d, q) || Ahead(w'.list, q)
    {
    }
  }

  lemma ListCovers(d: Disk, w: Walk, stale: set<string>, q: Path)
    requires Covers(d, w, stale) && q in w.list
    ensures Covers(d, ListStep(d, w, q), stale)
  {
    var w' := ListStep(d, w, q);
    forall p | p in d && p != [] && Join(p) !in stale
      ensures p in w'.visit || Get(w'.acc, Join(p)) == StatOf(d, p) || Ahead(w'.list, p)
    {
      if !(p in w.visit || Get(w.acc, Join(p)) == StatOf(d, p)) {
        var a :| a in w.list && a < p;
        if a == q {
          NextBelow(d, q, p);
          var c: Path := p[..|q| + 1];
          if c != p {
            assert c in w'.list && c < p;
          }
        } else {
          assert a in w'.list;
        }
      }
    }
  }

  /** The node one level below `q` on the way to `p`. */
  lemma NextBelow(d: Disk, q: Path, p: Path)
    requires p in d && q < p
    ensures var c := p[..|q| + 1]; c in Children(d, q) && c <= p && (c != p ==> d[c] == Dir)
  {
    var c: Path := p[..|q| + 1];
    assert Parent(c) == q;
    if c != p {
      assert c < p;
      AncestorOnDisk(d, p, c);
    }
  }

  /** Nothing left ahead: apart from `stale`, the walk has recorded the disk. */
  lemma DoneCovers(d: Disk, w: Walk, stale: set<string>)
    requires Covers(d, w, stale) && w.visit == {} && w.list == {}
    ensures forall k :: k !in stale ==> Get(w.acc, k) == Get(TreeOf(d), k)
  {
  }

  /** A visit puts nothing right that was not still ahead. */
  lemma VisitCoversOnly(d: Disk, w: Walk, stale: set<string>, p: Path)
    requires [] !in w.visit && p in w.visit && Covers(d, VisitStep(d, w, p), stale)
    ensures Covers(d, w, stale)
  {
    TreeKeysDistinct(d);
    var w' := VisitStep(d, w, p);
    forall q | q in d && q != [] && Join(q) !in stale
      ensures q in w.visit || Get(w.acc, Join(q)) == StatOf(d, q) || Ahead(w.list, q)
    {
      assert q in w'.visit || Get(w'.acc, Join(q)) == StatOf(d, q) || Ahead(w'.list, q);
    }
  }

  lemma ListCoversOnly(d: Disk, w: Walk, stale: set<string>, q: Path)
    requires [] !in w.visit && q in w.list && Covers(d, ListStep(d, w, q), stale)
    ensures Covers(d, w, stale)
  {
    var w' := ListStep(d, w, q);
    forall p | p in d && p != [] && Join(p) !in stale
      ensures p in w.visit || Get(w.acc, Join(p)) == StatOf(d, p) || Ahead(w.list, p)
    {
      if p in Children(d, q) {
        assert q < p;
      } else if Ahead(w'.list, p) {
        var a :| a in w'.list && a < p;
        assert a in w.list || q < a;
      }
    }
  }

  /** A finished walk has the tree of the disk exactly when it has got nothing wrong. */
  lemma DoneExactly(d: Disk, w: Walk)
    requires w.visit == {} && w.list == {}
    ensures w.acc == TreeOf(d) <==> Covers(d, w, {})
  {
    if Covers(d, w, {}) {
      DoneCovers(d, w, {});
      SameTree(w.acc, TreeOf(d));
    }
    if w.acc == TreeOf(d) {
      forall p | p in d && p != [] ensures Get(w.acc, Join(p)) == StatOf(d, p) {
        TreeAt(d, p);
      }
    }
  }

  /** No two directories waiting to be read lie one below the other. */
  predicate Antichain(list: set<Path>) {
    forall a, b :: a in list && b in list && a <= b ==> a == b
  }

  /** The nodes a walk may still have to read: those at or below a waiting directory. */
  ghost function Unlisted(d: Disk, list: set<Path>): set<Path> {
    set p | p in d && exists q :: q in list && q <= p
  }

  lemma ListKeepsAntichain(d: Disk, w: Walk, q: Path)
    requires q in w.list && Antichain(w.list)
    ensures Antichain(ListStep(d, w, q).list)
  {
  }

  lemma ListShrinks(d: Disk, w: Walk, q: Path)
    requires q in w.list && q in d && Antichain(w.list)
    ensures Unlisted(d, ListStep(d, w, q).list) < Unlisted(d, w.list)
  {
    var list' := ListStep(d, w, q).list;
    forall p | p in Unlisted(d, list') ensures p in Unlisted(d, w.list) {
      var a :| a in list' && a <= p;
      assert if a in w.list then a <= p else q <= p;
    }
    assert q in Unlisted(d, w.list);
    assert forall a :: a in list' && a <= q ==> a in w.list && a != q;
    assert q !in Unlisted(d, list');
  }

  /** What every worker step keeps while the disk stands still. */
  ghost predicate Ready(d: Disk, w: Walk) {
    Covers(d, w, {}) && Antichain(w.list) && forall q :: q in w.list ==> q in d
  }

  lemma StartReady(d: Disk)
    ensures Ready(d, StartWalk())
  {
  }

  lemma VisitReady(d: Disk, w: Walk, p: Path)
    requires Ready(d, w) && p in w.visit
    ensures var w' := VisitStep(d, w, p);
      Ready(d, w') && Unlisted(d, w'.list) == Unlisted(d, w.list) && w'.visit < w.visit
  {
    VisitCovers(d, w, {}, p);
  }

  lemma ListReady(d: Disk, w: Walk, q: Path)
    requires Ready(d, w) && q in w.list
    ensures var w' := ListStep(d, w, q);
      Ready(d, w') && Unlisted(d, w'.list) < Unlisted(d, w.list)
  {
    ListCovers(d, w, {}, q);
    ListKeepsAntichain(d, w, q);
    ListShrinks(d, w, q);
  }

  /** The walk of an unchanging disk. Whichever entry a worker takes next, the walk ends,
      and it ends with the tree of the disk. */
  method BuildTree(d: Disk) returns (tree: Tree)
    ensures tree == TreeOf(d) && Lists(tree, d)
  {
    var w := StartWalk();
    StartReady(d);
    while w.visit != {} || w.list != {}
      invariant Ready(d, w)
      decreases Unlisted(d, w.list), w.visit
    {
      if
      case w.visit != {} =>
        var p :| p in w.visit;
        VisitReady(d, w, p);
        w := VisitStep(d, w, p);
      case w.list != {} =>
        var q :| q in w.list;
        ListReady(d, w, q);
        w := ListStep(d, w, q);
    }
    WalkedAll(d, w);
    tree := w.acc;
    ListsExactly(tree, d);
  }

  lemma WalkedAll(d: Disk, w: Walk)
    requires Ready(d, w) && w.visit == {} && w.list == {}
    ensures w.acc == TreeOf(d)
  {
    DoneCovers(d, w, {});
    SameTree(w.acc, TreeOf(d));
  }

  /** What both walks agree on: the kind of a node and the size of a file. */
  datatype Shape = DirShape | FileShape(size: nat)

  function ShapeOf(e: Entry): Shape {
    match e
    case DirEntry => DirShape
    case FileEntry(size, _, _) => FileShape(size)
  }

  ghost function Shapes(t: Tree): map<string, Shape> {
    map k | k in t :: ShapeOf(t[k])
  }

  /** What `stat` makes of the disk: a link is listed with the size of what it leads to. */
  ghost function Followed(d: Disk, follow: Path -> Option<nat>): (d': Disk)
    ensures d'.Keys == d.Keys
    ensures forall p <- d :: if d[p].Symlink? && follow(p).Some?
                             then d'[p] == Symlink(d[p].meta.(size := follow(p).value)) else d'[p] == d[p]
  {
    var d': map<Path, Node> := map p | p in d ::
      if d[p].Symlink? && follow(p).Some? then Symlink(d[p].meta.(size := follow(p).value)) else d[p];
    assert forall p {:trigger Parent(p)} :: p in d' ==> Parent(p) in d && d[Parent(p)] == Dir;
    d'
  }

  predicate AtOrBelow(tops: set<Path>, p: Path) {
    exists c :: c in tops && c <= p
  }

  ghost function Below(d: Disk, tops: set<Path>): set<Path> {
    set p | p in d && AtOrBelow(tops, p)
  }

  lemma BelowGrows(d: Disk, tops: set<Path>, c: Path)
    requires c in d
    ensures Below(d, tops + {c}) == Below(d, tops) + {c} + Below(d, Children(d, c))
  {
    forall p: Path | p in d
      ensures AtOrBelow(tops + {c}, p) <==> AtOrBelow(tops, p) || p == c || AtOrBelow(Children(d, c), p)
    {
      if c <= p && c != p {
        NextBelow(d, c, p);
      }
      if AtOrBelow(Children(d, c), p) {
        var n :| n in Children(d, c) && n <= p;
        assert c <= p && c in tops + {c};
      }
      if AtOrBelow(tops, p) {
        var n :| n in tops && n <= p;
        assert n in tops + {c};
      }
      if p == c {
        assert c in tops + {c} && c <= p;
      }
    }
  }

  lemma BelowWidens(d: Disk, tops: set<Path>, tops': set<Path>)
    requires tops <= tops'
    ensures Below(d, tops) <= Below(d, tops')
  {
  }

  /** The keys at or below one of `tops`. */
  ghost function KeysBelow(d: Disk, tops: set<Path>): set<string> {
    set p | p in Below(d, tops) && p != [] :: Join(p)
  }

  ghost function ShapesIn(t: Tree, keys: set<string>): map<string, Shape> {
    map k | k in t && k in keys :: ShapeOf(t[k])
  }

  ghost function ShapesBelow(d: Disk, tops: set<Path>): map<string, Shape> {
    ShapesIn(TreeOf(d), KeysBelow(d, tops))
  }

  ghost function SubtreeNodes(d: Disk, dir: Path): set<Path> {
    set p | p in d && dir <= p
  }

  lemma KeysBelowGrow(d: Disk, tops: set<Path>, c: Path)
    requires c in d && c != []
    ensures KeysBelow(d, tops + {c}) == KeysBelow(d, tops) + {Join(c)} + KeysBelow(d, Children(d, c))
  {
    BelowGrows(d, tops, c);
  }

  lemma ShapesBelowGrow(d: Disk, tops: set<Path>, c: Path)
    requires c in d && c != []
    ensures ShapesBelow(d, tops + {c}) ==
            ShapesBelow(d, tops)[Join(c) := ShapeOf(EntryOf(d[c]))] + ShapesBelow(d, Children(d, c))
  {
    KeysBelowGrow(d, tops, c);
    TreeAt(d, c);
    ShapesInGrow(TreeOf(d), KeysBelow(d, tops), Join(c), EntryOf(d[c]), KeysBelow(d, Children(d, c)));
  }

  lemma ShapesInGrow(t: Tree, s1: set<string>, k: string, e: Entry, s2: set<string>)
    requires Get(t, k) == Some(e)
    ensures ShapesIn(t, s1 + {k} + s2) == ShapesIn(t, s1)[k := ShapeOf(e)] + ShapesIn(t, s2)
  {
  }

  /** The JavaScript object the sequential walk fills in. */
  class TreeObject {
    var entries: map<string, Shape>

    constructor ()
      ensures entries == map[]
    {
      entries := map[];
    }
  }

  /** No link at or below `tops` leads nowhere. */
  ghost predicate NoneDangling(d: Disk, follow: Path -> Option<nat>, tops: set<Path>) {
    forall p :: p in Below(d, tops) && d[p].Symlink? ==> follow(p).Some?
  }

  lemma DanglingChild(d: Disk, follow: Path -> Option<nat>, dir: Path, done: set<Path>, c: Path)
    requires done <= Children(d, dir) && c in Children(d, dir) && NoneDangling(d, follow, done)
    ensures
      var fine := if d[c] == Dir then NoneDangling(d, follow, Children(d, c)) else d[c].Symlink? ==> follow(c).Some?;
      && (fine <==> NoneDangling(d, follow, done + {c}))
      && (!fine ==> !NoneDangling(d, follow, Children(d, dir)))
  {
    BelowGrows(d, done, c);
    BelowWidens(d, done + {c}, Children(d, dir));
    if d[c] != Dir {
      assert Children(d, c) == {};
    }
  }

  /** The baseline walk: one directory at a time, children in whatever order they are listed. It
      asks for the size behind a link, and is abandoned at a link that leads nowhere. */
  method BaselineWalk(d: Disk, follow: Path -> Option<nat>, dir: Path, prefix: string, tree: TreeObject)
    returns (ok: bool)
    requires dir in d && d[dir] == Dir && prefix == Join(dir)
    modifies tree
    ensures ok <==> NoneDangling(d, follow, Children(d, dir))
    ensures ok ==> tree.entries == old(tree.entries) + ShapesBelow(Followed(d, follow), Children(d, dir))
    decreases SubtreeNodes(d, dir)
  {
    ghost var seen := Followed(d, follow);
    var rest := Children(d, dir);
    ghost var done: set<Path> := {};
    assert ShapesBelow(seen, done) == map[];
    while rest != {}
      invariant rest + done == Children(d, dir) && rest !! done
      invariant NoneDangling(d, follow, done)
      invariant tree.entries == old(tree.entries) + ShapesBelow(seen, done)
      decreases rest
    {
      var full :| full in rest;
      var name := full[|full| - 1];
      var rel := if prefix == "" then name else prefix + "/" + name;
      assert Children(seen, dir) == Children(d, dir) && Children(seen, full) == Children(d, full);
      SubtreeShrinks(d, dir, full);
      ChildStep(seen, dir, full, old(tree.entries), done);
      DanglingChild(d, follow, dir, done, full);
      if d[full] == Dir {
        tree.entries := tree.entries[rel := DirShape];
        ok := BaselineWalk(d, follow, full, rel, tree);
        if !ok {
          return false;
        }
      } else {
        var size := if d[full].Symlink? then follow(full) else Some(EntryOf(d[full]).size);
        if size.None? {
          return false;
        }
        tree.entries := tree.entries[rel := FileShape(size.value)];
      }
      rest, done := rest - {full}, done + {full};
    }
    ok := true;
  }

  /** One child and everything below it, added to what the earlier children contributed. */
  lemma ChildStep(d: Disk, dir: Path, full: Path, before: map<string, Shape>, done: set<Path>)
    requires dir in d && full in Children(d, dir)
    ensures Join(full) == if Join(dir) == "" then full[|full| - 1] else Join(dir) + "/" + full[|full| - 1]
    ensures var added := (before + ShapesBelow(d, done))[Join(full) := ShapeOf(EntryOf(d[full]))];
      && added + ShapesBelow(d, Children(d, full)) == before + ShapesBelow(d, done + {full})
      && (d[full] != Dir ==> added == before + ShapesBelow(d, done + {full}))
  {
    KeyOfChild(dir, full);
    ChildShapes(d, full, before, done);
  }

  lemma ChildShapes(d: Disk, full: Path, before: map<string, Shape>, done: set<Path>)
    requires full in d && full != []
    ensures var added := (before + ShapesBelow(d, done))[Join(full) := ShapeOf(EntryOf(d[full]))];
      && added + ShapesBelow(d, Children(d, full)) == before + ShapesBelow(d, done + {full})
      && (d[full] != Dir ==> added == before + ShapesBelow(d, done + {full}))
  {
    ShapesBelowGrow(d, done, full);
    if d[full] != Dir {
      LeafHasNothingBelow(d, full);
    }
    AddChild(before, ShapesBelow(d, done), Join(full), ShapeOf(EntryOf(d[full])),
             ShapesBelow(d, Children(d, full)), ShapesBelow(d, done + {full}));
  }

  lemma SubtreeShrinks(d: Disk, dir: Path, full: Path)
    requires dir in d && full in Children(d, dir)
    ensures SubtreeNodes(d, full) < SubtreeNodes(d, dir)
  {
    assert dir in SubtreeNodes(d, dir) && dir !in SubtreeNodes(d, full);
  }

  lemma AddChild<T>(a: map<string, T>, b: map<string, T>, k: string, v: T, c: map<string, T>, b': map<string, T>)
    requires b' == b[k := v] + c
    ensures (a + b)[k := v] + c == a + b'
    ensures c == map[] ==> (a + b)[k := v] == a + b'
  {
  }

  lemma KeyOfChild(dir: Path, full: Path)
    requires full != [] && Parent(full) == dir
    ensures Join(full) == if Join(dir) == "" then full[|full| - 1] else Join(dir) + "/" + full[|full| - 1]
  {
    var name := full[|full| - 1];
    assert full == dir + [name];
    if dir != [] {
      JoinConcat(dir, [name]);
      JoinNonEmpty(dir);
    }
  }

  lemma LeafHasNothingBelow(d: Disk, p: Path)
    requires p in d && d[p] != Dir
    ensures ShapesBelow(d, Children(d, p)) == map[]
  {
  }

  /** Every link leads to something of the size the link itself reports. */
  ghost predicate LinksKeepSize(d: Disk, follow: Path -> Option<nat>) {
    forall p <- d :: d[p].Symlink? ==> follow(p) == Some(d[p].meta.size)
  }

  /** The whole sequential walk succeeds exactly when no link is dangling, and then lists the same
      keys, kinds and sizes as the parallel one exactly when every link keeps its size; on a disk
      without links it always does. */
  method BaselineRun(d: Disk, follow: Path -> Option<nat>) returns (ok: bool, tree: TreeObject)
    ensures fresh(tree)
    ensures ok <==> forall p <- d :: d[p].Symlink? ==> follow(p).Some?
    ensures ok ==> tree.entries == Shapes(TreeOf(Followed(d, follow)))
    ensures ok ==> (tree.entries == Shapes(TreeOf(d)) <==> LinksKeepSize(d, follow))
  {
    tree := new TreeObject();
    ok := BaselineWalk(d, follow, [], "", tree);
    FromTheRoot(d, follow);
    if ok {
      NothingBefore(Shapes(TreeOf(Followed(d, follow))));
      LinksShow(d, follow);
    }
  }

  lemma NothingBefore<T>(m: map<string, T>)
    ensures map[] + m == m
  {
  }

  lemma FromTheRoot(d: Disk, follow: Path -> Option<nat>)
    ensures NoneDangling(d, follow, Children(d, [])) <==> forall p <- d :: d[p].Symlink? ==> follow(p).Some?
    ensures ShapesBelow(Followed(d, follow), Children(d, [])) == Shapes(TreeOf(Followed(d, follow)))
  {
    BelowTheRoot(d);
    EverythingIsBelowTheRoot(Followed(d, follow));
    assert Children(Followed(d, follow), []) == Children(d, []);
  }

  lemma LinksShow(d: Disk, follow: Path -> Option<nat>)
    requires forall p <- d :: d[p].Symlink? ==> follow(p).Some?
    ensures Shapes(TreeOf(Followed(d, follow))) == Shapes(TreeOf(d)) <==> LinksKeepSize(d, follow)
  {
    if LinksKeepSize(d, follow) {
      assert Followed(d, follow) == d;
    } else {
      var p :| p in d && d[p].Symlink? && follow(p) != Some(d[p].meta.size);
      LinkSizeShows(d, follow, p);
    }
  }

  lemma LinkSizeShows(d: Disk, follow: Path -> Option<nat>, p: Path)
    requires p in d && d[p].Symlink? && follow(p).Some? && follow(p).value != d[p].meta.size
    ensures Shapes(TreeOf(Followed(d, follow))) != Shapes(TreeOf(d))
  {
    var k := Join(p);
    TreeAt(d, p);
    TreeAt(Followed(d, follow), p);
    assert k in TreeOf(d) && TreeOf(d)[k] == EntryOf(d[p]);
    assert Shapes(TreeOf(d))[k] != Shapes(TreeOf(Followed(d, follow)))[k];
  }

  lemma BelowTheRoot(d: Disk)
    ensures Below(d, Children(d, [])) == d.Keys - {[]}
  {
    forall p | p in d && p != [] ensures p in Below(d, Children(d, [])) {
      NextBelow(d, [], p);
    }
  }

  lemma EverythingIsBelowTheRoot(d: Disk)
    ensures ShapesBelow(d, Children(d, [])) == Shapes(TreeOf(d))
  {
    KeysBelowTheRoot(d);
    AllShapes(TreeOf(d));
  }

  lemma KeysBelowTheRoot(d: Disk)
    ensures KeysBelow(d, Children(d, [])) == TreeOf(d).Keys
  {
    BelowTheRoot(d);
  }

  lemma AllShapes(t: Tree)
    ensures ShapesIn(t, t.Keys) == Shapes(t)
  {
  }
}
