/** Downloading a directory as a zip archive. */
module Archive {
  import opened Wrappers
  import opened Sequences
  import opened Text
  import opened Keys
  import opened Vault
  import opened TreeWalk

  datatype Fault = Unreadable | DuplicateName

  datatype ZipEntry = ZipEntry(name: string, bytes: seq<Byte>)

  predicate Distinct(entries: seq<ZipEntry>) {
    forall i, j :: 0 <= i < j < |entries| ==> entries[i].name != entries[j].name
  }

  predicate Holds(entries: seq<ZipEntry>, name: string) {
    exists e :: e in entries && e.name == name
  }

  /** What the archive stores under each name. */
  function Contents(entries: seq<ZipEntry>): map<string, seq<Byte>> {
    if entries == [] then map[]
    else Contents(entries[..|entries| - 1])[entries[|entries| - 1].name := entries[|entries| - 1].bytes]
  }

  lemma {:induction false} ContentsKeys(entries: seq<ZipEntry>, name: string)
    ensures name in Contents(entries) <==> Holds(entries, name)
  {
    if entries != [] {
      var init, e := entries[..|entries| - 1], entries[|entries| - 1];
      ContentsKeys(init, name);
      assert entries == init + [e];
    }
  }

  /** The archive being written; it refuses a second entry of the same name. */
  class ZipWriter {
    var entries: seq<ZipEntry>

    constructor ()
      ensures entries == []
    {
      entries := [];
    }

    method StartFile(name: string) returns (ok: bool)
      modifies this
      ensures ok == !Holds(old(entries), name)
      ensures entries == if ok then old(entries) + [ZipEntry(name, [])] else old(entries)
    {
      ok := !Holds(entries, name);
      if ok {
        entries := entries + [ZipEntry(name, [])];
      }
    }

    /** Writing goes to the entry started last. */
    method WriteAll(bytes: seq<Byte>)
      requires entries != []
      modifies this
      ensures var last := old(entries)[|old(entries)| - 1];
        entries == old(entries)[..|old(entries)| - 1] + [ZipEntry(last.name, last.bytes + bytes)]
    {
      var last := entries[|entries| - 1];
      entries := entries[..|entries| - 1] + [ZipEntry(last.name, last.bytes + bytes)];
    }
  }

  /** The name under which a node below `base` is archived. */
  function NameOf(top: string, base: Path, p: Path): string
    requires base <= p
  {
    if p == base then top else top + "/" + Join(p[|base|..])
  }

  lemma NameInjective(top: string, base: Path, p: Path, q: Path)
    requires base < p && base < q && NameOf(top, base, p) == NameOf(top, base, q)
    ensures p == q
  {
    var n := |top| + 1;
    assert Join(p[|base|..]) == NameOf(top, base, p)[n..] == NameOf(top, base, q)[n..] == Join(q[|base|..]);
    JoinInjective(p[|base|..], q[|base|..]);
    assert p == base + p[|base|..] && q == base + q[|base|..];
  }

  lemma NameOfChild(top: string, base: Path, dir: Path, p: Path)
    requires base <= dir && p != [] && Parent(p) == dir
    ensures base < p && NameOf(top, base, p) == NameOf(top, base, dir) + "/" + p[|p| - 1]
  {
    var last := p[|p| - 1];
    assert p == dir + [last];
    if dir != base {
      assert p[|base|..] == dir[|base|..] + [last];
      JoinConcat(dir[|base|..], [last]);
      ConcatAssociates(top + "/", Join(dir[|base|..]) + "/", last);
      ConcatAssociates(top + "/", Join(dir[|base|..]), "/");
    } else {
      assert p[|base|..] == [last];
    }
  }

  /** The regular files among `ps`, by archive name. */
  ghost function Filed(d: Disk, top: string, base: Path, ps: set<Path>): map<string, seq<Byte>> {
    NamesDistinct(top, base);
    map p | p in ps && p in d && base < p && d[p].File? :: NameOf(top, base, p) := d[p].bytes
  }

  lemma NamesDistinct(top: string, base: Path)
    ensures forall p, q :: base < p && base < q && p != q ==> NameOf(top, base, p) != NameOf(top, base, q)
  {
    forall p, q | base < p && base < q && NameOf(top, base, p) == NameOf(top, base, q) ensures p == q {
      NameInjective(top, base, p, q);
    }
  }

  lemma FiledAt(d: Disk, top: string, base: Path, ps: set<Path>, p: Path)
    requires p in ps && p in d && base < p && d[p].File?
    ensures var name, c := NameOf(top, base, p), Filed(d, top, base, ps);
      name in c && c[name] == d[p].bytes
  {
    var name := NameOf(top, base, p);
    var c := Filed(d, top, base, ps);
    assert name in c;
    var q :| q in ps && q in d && base < q && d[q].File? && NameOf(top, base, q) == name && c[name] == d[q].bytes;
    NameInjective(top, base, p, q);
  }

  ghost function Source(d: Disk, top: string, base: Path, ps: set<Path>, name: string): (p: Path)
    requires name in Filed(d, top, base, ps)
    ensures p in ps && p in d && base < p && d[p].File? && NameOf(top, base, p) == name
  {
    var p :| p in ps && p in d && base < p && d[p].File? && NameOf(top, base, p) == name;
    p
  }

  /** Everything the walk opens can be opened: `denied` are the nodes that cannot be read. */
  ghost predicate ReadableBelow(d: Disk, denied: set<Path>, tops: set<Path>) {
    forall p :: p in Below(d, tops) && p in denied ==> d[p].Symlink?
  }

  ghost predicate Readable(d: Disk, denied: set<Path>, dir: Path) {
    dir in d && d[dir] == Dir && dir !in denied && ReadableBelow(d, denied, Children(d, dir))
  }

  lemma SamePrefix(a: Path, b: Path, p: Path)
    requires a <= p && b <= p && |a| == |b|
    ensures a == b
  {
  }

  /** The subtrees of two children of one directory share nothing. */
  lemma SiblingsDisjoint(d: Disk, dir: Path, done: set<Path>, c: Path)
    requires done <= Children(d, dir) && c in Children(d, dir) && c !in done
    ensures c !in Below(d, done) && Below(d, done) !! Below(d, Children(d, c))
  {
    forall p | p in Below(d, done) ensures !(c <= p) {
      var n :| n in done && n <= p;
      if c <= p {
        SamePrefix(n, c, p);
      }
    }
    forall p | p in Below(d, Children(d, c)) ensures c <= p {
      var n :| n in Children(d, c) && n <= p;
      assert c <= n;
    }
  }

  /** One file more brings its own name and no other. */
  lemma FiledOther(d: Disk, top: string, base: Path, ps: set<Path>, p: Path, name: string)
    requires p in d && base < p && name != NameOf(top, base, p)
    ensures var was, now := Filed(d, top, base, ps), Filed(d, top, base, ps + {p});
      (name in now <==> name in was) && (name in was ==> now[name] == was[name])
  {
    if name in Filed(d, top, base, ps) {
      var q := Source(d, top, base, ps, name);
      FiledAt(d, top, base, ps, q);
      FiledAt(d, top, base, ps + {p}, q);
    }
    if name in Filed(d, top, base, ps + {p}) {
      var q := Source(d, top, base, ps + {p}, name);
      FiledAt(d, top, base, ps, q);
    }
  }

  lemma FiledGrows(d: Disk, top: string, base: Path, ps: set<Path>, p: Path)
    requires p in d && base < p && d[p].File?
    ensures Filed(d, top, base, ps + {p}) == Filed(d, top, base, ps)[NameOf(top, base, p) := d[p].bytes]
    ensures p !in ps ==> NameOf(top, base, p) !in Filed(d, top, base, ps)
  {
    var name := NameOf(top, base, p);
    FiledAt(d, top, base, ps + {p}, p);
    if name in Filed(d, top, base, ps) {
      var q := Source(d, top, base, ps, name);
      NameInjective(top, base, p, q);
    }
    forall n | n != name
      ensures var was, now := Filed(d, top, base, ps), Filed(d, top, base, ps + {p});
        (n in now <==> n in was) && (n in was ==> now[n] == was[n])
    {
      FiledOther(d, top, base, ps, p, n);
    }
    PutOne(Filed(d, top, base, ps), Filed(d, top, base, ps + {p}), name, d[p].bytes);
  }

  lemma PutOne(was: map<string, seq<Byte>>, now: map<string, seq<Byte>>, name: string, bytes: seq<Byte>)
    requires name in now && now[name] == bytes
    requires forall n :: n != name ==> (n in now <==> n in was) && (n in was ==> now[n] == was[n])
    ensures now == was[name := bytes]
  {
  }

  /** The archive holds exactly the regular files among `ps`, each once. */
  ghost predicate Stored(d: Disk, top: string, base: Path, entries: seq<ZipEntry>, ps: set<Path>) {
    Distinct(entries) && Contents(entries) == Filed(d, top, base, ps)
  }

  lemma FileStored(d: Disk, top: string, base: Path, entries: seq<ZipEntry>, ps: set<Path>, p: Path)
    requires Stored(d, top, base, entries, ps) && p in d && base < p && d[p].File? && p !in ps
    ensures var name := NameOf(top, base, p);
      var started := entries + [ZipEntry(name, [])];
      && !Holds(entries, name)
      && Stored(d, top, base, started[..|started| - 1] + [ZipEntry(name, [] + d[p].bytes)], ps + {p})
  {
    FiledGrows(d, top, base, ps, p);
    ContentsKeys(entries, NameOf(top, base, p));
    Written(entries, NameOf(top, base, p), d[p].bytes);
  }

  lemma OtherStored(d: Disk, top: string, base: Path, entries: seq<ZipEntry>, ps: set<Path>, p: Path)
    requires Stored(d, top, base, entries, ps) && p in d && base < p && !d[p].File?
    ensures Stored(d, top, base, entries, ps + {p})
  {
  }

  /** One file written: started under a new name, then filled. */
  lemma Written(entries: seq<ZipEntry>, name: string, bytes: seq<Byte>)
    requires Distinct(entries) && !Holds(entries, name)
    ensures var started := entries + [ZipEntry(name, [])];
      var filled := started[..|started| - 1] + [ZipEntry(name, [] + bytes)];
      Distinct(filled) && Contents(filled) == Contents(entries)[name := bytes]
  {
    var filled := entries + [ZipEntry(name, [] + bytes)];
    assert [] + bytes == bytes;
    assert filled[..|filled| - 1] == entries;
    assert forall i :: 0 <= i < |entries| ==> entries[i] in entries;
  }

  /** One more child: where its subtree stands among what the walk has written. */
  lemma NextChild(d: Disk, dir: Path, before: set<Path>, done: set<Path>, c: Path)
    requires done <= Children(d, dir) && c in Children(d, dir) && c !in done
    requires before !! Below(d, Children(d, dir))
    ensures var ps, ps' := before + Below(d, done), before + Below(d, done + {c});
      && c !in ps && ps + {c} !! Below(d, Children(d, c))
      && (ps' == if d[c] == Dir then ps + {c} + Below(d, Children(d, c)) else ps + {c})
  {
    BelowGrows(d, done, c);
    SiblingsDisjoint(d, dir, done, c);
    BelowWidens(d, done + {c}, Children(d, dir));
    NotBelowItself(d, c);
    if d[c] != Dir {
      assert Children(d, c) == {};
    }
  }

  lemma NotBelowItself(d: Disk, c: Path)
    ensures c !in Below(d, Children(d, c))
  {
  }

  lemma ReadableGrows(d: Disk, denied: set<Path>, done: set<Path>, c: Path)
    requires c in d
    ensures ReadableBelow(d, denied, done + {c}) <==>
              && ReadableBelow(d, denied, done) && (c in denied ==> d[c].Symlink?)
              && ReadableBelow(d, denied, Children(d, c))
  {
    BelowGrows(d, done, c);
  }

  /** How one child fares decides how the directory fares. */
  lemma ReadableChild(d: Disk, denied: set<Path>, dir: Path, done: set<Path>, c: Path)
    requires done <= Children(d, dir) && c in Children(d, dir) && c !in done
    requires ReadableBelow(d, denied, done)
    ensures var fine := d[c].Symlink? || (if d[c] == Dir then Readable(d, denied, c) else c !in denied);
      && (fine <==> ReadableBelow(d, denied, done + {c}))
      && (!fine ==> !Readable(d, denied, dir))
  {
    ReadableGrows(d, denied, done, c);
    BelowWidens(d, done + {c}, Children(d, dir));
    if d[c] != Dir {
      assert Children(d, c) == {};
    }
  }

  /** The recursive walk; `before` are the nodes whose files the archive already holds. */
  method ZipWalk(d: Disk, denied: set<Path>, ghost top: string, ghost base: Path,
                 dir: Path, prefix: string, zw: ZipWriter, ghost before: set<Path>)
    returns (r: Result<(), Fault>)
    requires base <= dir && prefix == NameOf(top, base, dir)
    requires Stored(d, top, base, zw.entries, before) && before !! Below(d, Children(d, dir))
    modifies zw
    ensures r.Ok? <==> Readable(d, denied, dir)
    ensures r.Ok? ==> Stored(d, top, base, zw.entries, before + Below(d, Children(d, dir)))
    decreases SubtreeNodes(d, dir)
  {
    if dir !in d || d[dir] != Dir || dir in denied {
      return Err(Unreadable);
    }
    var rest := Children(d, dir);
    ghost var done: set<Path> := {};
    ghost var ps := before;
    assert Below(d, done) == {};
    while rest != {}
      invariant rest + done == Children(d, dir) && rest !! done
      invariant ReadableBelow(d, denied, done)
      invariant ps == before + Below(d, done) && Stored(d, top, base, zw.entries, ps)
      decreases rest
    {
      var entry :| entry in rest;
      NameOfChild(top, base, dir, entry);
      SubtreeShrinks(d, dir, entry);
      NextChild(d, dir, before, done, entry);
      ReadableChild(d, denied, dir, done, entry);
      if !d[entry].Symlink? {
        var name := entry[|entry| - 1];
        var zipPath := prefix + "/" + name;
        if d[entry] == Dir {
          OtherStored(d, top, base, zw.entries, ps, entry);
          var sub := ZipWalk(d, denied, top, base, entry, zipPath, zw, ps + {entry});
          if sub.Err? {
            return sub;
          }
        } else {
          FileStored(d, top, base, zw.entries, ps, entry);
          var ok := zw.StartFile(zipPath);
          if !ok {
            return Err(DuplicateName);
          }
          if entry in denied {
            return Err(Unreadable);
          }
          zw.WriteAll(d[entry].bytes);
          assert Stored(d, top, base, zw.entries, ps + {entry});
        }
      } else {
        OtherStored(d, top, base, zw.entries, ps, entry);
      }
      ps := if d[entry] == Dir then ps + {entry} + Below(d, Children(d, entry)) else ps + {entry};
      rest, done := rest - {entry}, done + {entry};
    }
    r := Ok(());
  }

  /** The whole archive of a directory, its entries under `prefix`. */
  method ZipDirectory(d: Disk, denied: set<Path>, dir: Path, prefix: string) returns (r: Result<seq<ZipEntry>, Fault>)
    ensures r.Ok? <==> Readable(d, denied, dir)
    ensures r.Ok? ==> Distinct(r.value) && Contents(r.value) == Filed(d, prefix, dir, d.Keys)
  {
    var zw := new ZipWriter();
    var walked := ZipWalk(d, denied, prefix, dir, dir, prefix, zw, {});
    if walked.Err? {
      return Err(walked.error);
    }
    AllBelow(d, prefix, dir);
    r := Ok(zw.entries);
  }

  lemma AllBelow(d: Disk, top: string, dir: Path)
    ensures Filed(d, top, dir, {} + Below(d, Children(d, dir))) == Filed(d, top, dir, d.Keys)
  {
    forall p | p in d && dir < p ensures p in Below(d, Children(d, dir)) {
      NextBelow(d, dir, p);
    }
    NamesDistinct(top, dir);
  }

  // ---- the archive and the index ----

  /** A directory taken as a vault of its own. */
  ghost function Rebased(d: Disk, dir: Path): (sub: Disk)
    requires dir in d && d[dir] == Dir
    ensures forall p: Path {:trigger p in sub} :: p in sub <==> dir + p in d
    ensures forall p: Path {:trigger sub[p]} :: p in sub ==> sub[p] == d[dir + p]
  {
    RebasedDistinct(dir);
    var sub: map<Path, Node> := map p | p in d && dir <= p :: p[|dir|..] := d[p];
    RebasedValid(d, dir, sub);
    sub
  }

  lemma RebasedDistinct(dir: Path)
    ensures forall p, q: Path :: dir <= p && dir <= q && p != q ==> p[|dir|..] != q[|dir|..]
  {
  }

  lemma RebasedValid(d: Disk, dir: Path, sub: map<Path, Node>)
    requires dir in d && d[dir] == Dir
    requires forall p <- sub :: exists q :: q in d && dir <= q && p == q[|dir|..] && sub[p] == d[q]
    requires forall q <- d :: dir <= q ==> q[|dir|..] in sub
    ensures ValidDisk(sub)
    ensures forall p: Path {:trigger p in sub} :: p in sub <==> dir + p in d
    ensures forall p: Path {:trigger sub[p]} :: p in sub ==> sub[p] == d[dir + p]
  {
    forall p: Path ensures (p in sub <==> dir + p in d) && (p in sub ==> sub[p] == d[dir + p]) {
      if p in sub {
        var q :| q in d && dir <= q && p == q[|dir|..] && sub[p] == d[q];
        assert q == dir + p;
      }
      if dir + p in d {
        assert (dir + p)[|dir|..] == p;
      }
    }
    assert dir + [] == dir;
    forall p {:trigger Parent(p)} | p in sub ensures Parent(p) in sub && sub[Parent(p)] == Dir {
      if p != [] {
        assert Parent(dir + p) == dir + Parent(p);
      }
    }
  }

  ghost predicate LinkAt(d: Disk, k: string) {
    exists p :: p in d && p != [] && Join(p) == k && d[p].Symlink?
  }

  /** The archive of a directory has exactly the file keys of the index of that directory, each
      under the prefix, symlinks left out. */
  lemma ArchiveMatchesIndex(d: Disk, dir: Path, prefix: string, k: string)
    requires dir in d && d[dir] == Dir
    ensures var sub := Rebased(d, dir);
      prefix + "/" + k in Filed(d, prefix, dir, d.Keys) <==>
      k in TreeOf(sub) && TreeOf(sub)[k].FileEntry? && !LinkAt(sub, k)
  {
    var sub := Rebased(d, dir);
    if prefix + "/" + k in Filed(d, prefix, dir, d.Keys) {
      ArchivedIsIndexed(d, dir, prefix, k);
    }
    if k in TreeOf(sub) && TreeOf(sub)[k].FileEntry? && !LinkAt(sub, k) {
      var q := IndexedFile(sub, k);
      FileArchived(d, dir, prefix, q);
    }
  }

  lemma ArchivedIsIndexed(d: Disk, dir: Path, prefix: string, k: string)
    requires dir in d && d[dir] == Dir && prefix + "/" + k in Filed(d, prefix, dir, d.Keys)
    ensures var sub := Rebased(d, dir);
      k in TreeOf(sub) && TreeOf(sub)[k].FileEntry? && !LinkAt(sub, k)
  {
    var p := Source(d, prefix, dir, d.Keys, prefix + "/" + k);
    var q: Path := p[|dir|..];
    assert dir + q == p;
    AfterPrefix(prefix, Join(q), k);
    FileIndexed(Rebased(d, dir), q);
  }

  lemma FileIndexed(d: Disk, q: Path)
    requires q in d && q != [] && d[q].File?
    ensures Join(q) in TreeOf(d) && TreeOf(d)[Join(q)].FileEntry? && !LinkAt(d, Join(q))
  {
    TreeAt(d, q);
    OnlyNodeAt(d, q);
  }

  lemma IndexedFile(d: Disk, k: string) returns (q: Path)
    requires k in TreeOf(d) && TreeOf(d)[k].FileEntry? && !LinkAt(d, k)
    ensures q in d && q != [] && Join(q) == k && d[q].File?
  {
    q :| q in d && q != [] && Join(q) == k;
    TreeAt(d, q);
  }

  lemma AfterPrefix(prefix: string, a: string, b: string)
    ensures prefix + "/" + a == prefix + "/" + b <==> a == b
  {
    assert (prefix + "/" + a)[|prefix| + 1..] == a && (prefix + "/" + b)[|prefix| + 1..] == b;
  }

  lemma OnlyNodeAt(d: Disk, q: Path)
    requires q in d && q != [] && !d[q].Symlink?
    ensures !LinkAt(d, Join(q))
  {
    TreeKeysDistinct(d);
  }

  lemma FileArchived(d: Disk, dir: Path, prefix: string, q: Path)
    requires dir + q in d && q != [] && d[dir + q].File?
    ensures var name, c := prefix + "/" + Join(q), Filed(d, prefix, dir, d.Keys);
      name in c && c[name] == d[dir + q].bytes
  {
    var p: Path := dir + q;
    assert p[|dir|..] == q;
    assert NameOf(prefix, dir, p) == prefix + "/" + Join(q);
    FiledAt(d, prefix, dir, d.Keys, p);
  }

  /** Unpacking: every entry becomes a file at the path its name spells. */
  function Unpacked(entries: seq<ZipEntry>): map<seq<string>, seq<Byte>> {
    if entries == [] then map[]
    else
      var last := entries[|entries| - 1];
      Unpacked(entries[..|entries| - 1])[Split(last.name, '/') := last.bytes]
  }

  lemma {:induction false} UnpackedAt(entries: seq<ZipEntry>, n: seq<string>)
    requires n != []
    ensures var out, c, name := Unpacked(entries), Contents(entries), Join(n);
      if Split(name, '/') != n then n !in out
      else if name in c then n in out && out[n] == c[name]
      else n !in out
  {
    if entries != [] {
      UnpackedAt(entries[..|entries| - 1], n);
      JoinSplit(entries[|entries| - 1].name);
    }
  }

  lemma {:induction false} UnpackedNonEmpty(entries: seq<ZipEntry>)
    ensures [] !in Unpacked(entries)
  {
    if entries != [] {
      UnpackedNonEmpty(entries[..|entries| - 1]);
    }
  }

  /** Unpacking the archive of a directory restores every regular file below it, at its place
      under the folder and with its bytes, and nothing else. Directories holding no file and
      symlinks are lost. */
  lemma UnpackRestores(d: Disk, dir: Path, folder: string, entries: seq<ZipEntry>)
    requires dir in d && d[dir] == Dir && '/' !in folder
    requires Contents(entries) == Filed(d, folder, dir, d.Keys)
    ensures var out, sub := Unpacked(entries), Rebased(d, dir);
      && (forall q: Path {:trigger [folder] + q} :: q in sub && sub[q].File? ==>
            [folder] + q in out && out[[folder] + q] == sub[q].bytes)
      && (forall n :: n in out ==> exists q: Path :: n == [folder] + q && q in sub && sub[q].File?)
  {
    var out, sub := Unpacked(entries), Rebased(d, dir);
    forall q: Path {:trigger [folder] + q} | q in sub && sub[q].File?
      ensures [folder] + q in out && out[[folder] + q] == sub[q].bytes
    {
      FileRestored(d, dir, folder, entries, q);
    }
    forall n | n in out ensures exists q: Path :: n == [folder] + q && q in sub && sub[q].File? {
      var q := RestoredFrom(d, dir, folder, entries, n);
    }
  }

  lemma FileRestored(d: Disk, dir: Path, folder: string, entries: seq<ZipEntry>, q: Path)
    requires '/' !in folder && Contents(entries) == Filed(d, folder, dir, d.Keys)
    requires dir + q in d && q != [] && d[dir + q].File?
    ensures var out := Unpacked(entries);
      [folder] + q in out && out[[folder] + q] == d[dir + q].bytes
  {
    FileArchived(d, dir, folder, q);
    NameSplits(folder, q);
    UnpackedAt(entries, [folder] + q);
  }

  lemma RestoredFrom(d: Disk, dir: Path, folder: string, entries: seq<ZipEntry>, n: seq<string>) returns (q: Path)
    requires '/' !in folder && Contents(entries) == Filed(d, folder, dir, d.Keys)
    requires n in Unpacked(entries)
    ensures n == [folder] + q && dir + q in d && d[dir + q].File?
  {
    UnpackedNonEmpty(entries);
    UnpackedAt(entries, n);
    var p := Source(d, folder, dir, d.Keys, Join(n));
    q := p[|dir|..];
    assert dir + q == p;
    NameSplits(folder, q);
  }

  lemma NameSplits(folder: string, q: Path)
    requires '/' !in folder && q != []
    ensures Split(folder + "/" + Join(q), '/') == [folder] + q
    ensures Join([folder] + q) == folder + "/" + Join(q)
  {
    assert folder + "/" + Join(q) == folder + ['/'] + Join(q);
    SplitConcat(folder, Join(q), '/');
    SplitAtom(folder, '/');
    SplitJoin(q);
    JoinConcat([folder], q);
  }
}
