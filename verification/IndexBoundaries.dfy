/** Where the guarantees of the live index end: each hypothesis of the main theorems, with a
    situation in which only that hypothesis fails. */
module IndexBoundaries {
  import opened Wrappers
  import opened Keys
  import opened Vault
  import opened TreeWalk
  import opened Index
  import opened IndexSystem
  import opened IndexOverlap

  /** `d'` is `d` with everything at or below `from` moved to `to`. */
  ghost predicate Renamed(d: Disk, d': Disk, from: Path, to: Path) {
    && from != [] && to != [] && from in d && to !in d && !(from <= to)
    && (forall p: Path {:trigger p in d'} ::
          p in d' <==> if to <= p then from + p[|to|..] in d else p in d && !(from <= p))
    && (forall p: Path {:trigger d'[p]} :: p in d' ==> d'[p] == if to <= p then d[from + p[|to|..]] else d[p])
  }

  /** A rename reported only by its two ends leaves the index right exactly when nothing lay
      below the renamed path. */
  lemma RenameReportedByItsEnds(root: Path, d: Disk, d': Disk, from: Path, to: Path)
    requires Renamed(d, d', from, to)
    ensures Applied(TreeOf(d), BatchOn(root, [root + from, root + to], d')) == TreeOf(d') <==>
            !exists p :: p in d && from < p
  {
    var paths := [root + from, root + to];
    BatchAgreesWithReconcile(root, TreeOf(d), paths, d');
    if p :| p in d && from < p {
      MovedChildMissed(root, d, d', from, to, p);
    } else {
      forall k | Get(TreeOf(d), k) != Get(TreeOf(d'), k) ensures k in KeysOf(root, paths) {
        ChangedIsAnEnd(root, d, d', from, to, k);
      }
    }
  }

  lemma MovedChildMissed(root: Path, d: Disk, d': Disk, from: Path, to: Path, p: Path)
    requires Renamed(d, d', from, to) && p in d && from < p
    ensures var paths, k := [root + from, root + to], Join(to + p[|from|..]);
      Get(TreeOf(d), k) != Get(TreeOf(d'), k) && k !in KeysOf(root, paths) && !BelowMissing(root, paths, d', k)
  {
    MovedOnDisk(d, d', from, to, p);
    MovedIsNoEnd(d, from, to, to + p[|from|..]);
    EndsOnly(root, from, to);
    TreeOfClosed(d');
  }

  lemma MovedOnDisk(d: Disk, d': Disk, from: Path, to: Path, p: Path)
    requires Renamed(d, d', from, to) && p in d && from < p
    ensures var q: Path := to + p[|from|..]; to < q && q !in d && Join(q) !in TreeOf(d) && Join(q) in TreeOf(d')
  {
    var q: Path := to + p[|from|..];
    assert from + q[|to|..] == p;
    NothingBelow(d, to, q);
    TreeAt(d, q);
    TreeAt(d', q);
  }

  lemma MovedIsNoEnd(d: Disk, from: Path, to: Path, q: Path)
    requires from in d && to !in d && to < q && q !in d
    ensures Join(q) != Join(from) && Join(q) != Join(to)
  {
    if Join(q) == Join(from) { JoinInjective(q, from); }
    if Join(q) == Join(to) { JoinInjective(q, to); }
  }

  lemma ChangedIsAnEnd(root: Path, d: Disk, d': Disk, from: Path, to: Path, k: string)
    requires Renamed(d, d', from, to) && (forall p :: p in d && from <= p ==> p == from)
    requires Get(TreeOf(d), k) != Get(TreeOf(d'), k)
    ensures k in KeysOf(root, [root + from, root + to])
  {
    EndsOnly(root, from, to);
    var p: Path := if k in TreeOf(d) then KeyPath(d, k) else KeyPath(d', k);
    TreeAt(d, p);
    TreeAt(d', p);
    if to <= p {
      NothingBelow(d, to, p);
      assert from + p[|to|..] == from;
      assert p == to;
    }
  }

  ghost function KeyPath(d: Disk, k: string): (p: Path)
    requires k in TreeOf(d)
    ensures p in d && p != [] && Join(p) == k
  {
    var p: Path :| p in d && p != [] && Join(p) == k;
    p
  }

  lemma NothingBelow(d: Disk, to: Path, p: Path)
    requires to !in d && to <= p
    ensures p !in d
  {
    if p in d && p != to {
      AncestorOnDisk(d, p, to);
    }
  }

  lemma EndsOnly(root: Path, from: Path, to: Path)
    requires from != [] && to != []
    ensures KeysOf(root, [root + from, root + to]) == {Join(from), Join(to)}
  {
    assert RelOf(root, root + from) == Some(from) && RelOf(root, root + to) == Some(to);
    assert root + from in [root + from, root + to] && root + to in [root + from, root + to];
  }

  /** A directory deleted and made again before it is looked at, with only its own path
      reported: what was below it stays in the index. */
  lemma RecreatedBeforeItsStat(root: Path, d: Disk, d': Disk, dir: Path, p: Path)
    requires dir in d' && dir != [] && dir < p && p in d && p !in d'
    ensures Join(p) in Applied(TreeOf(d), BatchOn(root, [root + dir], d'))
    ensures Join(p) !in TreeOf(d')
  {
    var paths := [root + dir];
    assert RelOf(root, root + dir) == Some(dir);
    TreeAt(d, p);
    TreeAt(d', p);
    TreeAt(d', dir);
    BatchMeaning(root, TreeOf(d), paths, d', Join(p));
    if Join(p) == Join(dir) { JoinInjective(p, dir); }
  }

  // ---- traces ----

  function At(root: Path, d: Disk, queue: seq<Path>, snapshot: Tree, log: seq<Event>, batch: Option<Batch>): State {
    State(root, d, queue, snapshot, log, batch, None)
  }

  /** A run in which the watcher reports everything and nothing overlaps. */
  ghost predicate Leads(s: State, ls: seq<Label>, end: State) {
    Runs(s, ls) && Diligent(s, ls) && Run(s, ls) == end
  }

  lemma LeadsBy(s: State, l: Label, s': State, ls: seq<Label>, end: State)
    requires Enabled(s, l) && FullyReported(s, l) && Separate(s, l) && Apply(s, l) == s'
    requires Leads(s', ls, end)
    ensures Leads(s, [l] + ls, end)
  {
  }

  lemma StatStep(s: State, rel: Path)
    requires Enabled(s, Stat) && s.batch.value.todo[0] == s.root + rel && rel != []
    ensures var b, o := s.batch.value, Seen(Join(rel), StatOf(s.disk, rel));
      Apply(s, Stat) == s.(batch := Some(Batch(StepTree(b.next, o), b.todo[1..])), log := s.log + StepEvents(b.next, o))
  {
    var b, o := s.batch.value, Seen(Join(rel), StatOf(s.disk, rel));
    assert RelOf(s.root, s.root + rel) == Some(rel);
    AppliedConcat(b.next, [], o);
    assert [] + [o] == [o];
    assert [] + StepEvents(b.next, o) == StepEvents(b.next, o);
  }

  /** `d'` differs from `d` only by a new directory and one file in it. */
  ghost predicate Adds(d: Disk, d': Disk, dir: Path, file: Path) {
    && dir != [] && dir < file && dir !in d && dir in d' && file in d' && d'[file].File?
    && forall k :: Get(TreeOf(d), k) != Get(TreeOf(d'), k) ==> k == Join(dir) || k == Join(file)
  }

  lemma UndoFacts(d: Disk, d': Disk, dir: Path, file: Path)
    requires Adds(d, d', dir, file)
    ensures var t, e := TreeOf(d), EntryOf(d'[file]);
      && Join(dir) !in t && Join(file) !in t && file !in d && e != DirEntry && Join(dir) != Join(file)
      && Prune(t[Join(file) := e], Join(dir)) == t && Prune(t, Join(dir)) == t && Prune(t, Join(file)) == t
  {
    TreeAt(d, dir);
    NothingBelow(d, dir, file);
    TreeAt(d, file);
    SubtreePrefix(dir, file);
    TreeOfClosed(d);
  }

  lemma {:induction false} LeadsConcat(s: State, a: seq<Label>, mid: State, b: seq<Label>, end: State)
    requires Leads(s, a, mid) && Leads(mid, b, end)
    ensures Leads(s, a + b, end)
    decreases |a|
  {
    if a == [] {
      assert a + b == b;
    } else {
      LeadsConcat(Apply(s, a[0]), a[1..], mid, b, end);
      assert (a + b)[1..] == a[1..] + b;
    }
  }

  lemma BothReported(root: Path, d: Disk, d': Disk, dir: Path, file: Path)
    requires Adds(d, d', dir, file)
    ensures forall k :: Get(TreeOf(d), k) != Get(TreeOf(d'), k) ==> k in KeysOf(root, [root + file, root + dir])
  {
    EndsOnly(root, file, dir);
  }

  /** The change is reported, and the batch looks at the new file. */
  lemma UndoMade(root: Path, d: Disk, d': Disk, dir: Path, file: Path, s0: State, s3: State)
    requires Adds(d, d', dir, file)
    requires s0 == At(root, d, [], TreeOf(d), [], None)
    requires var f, e := Join(file), EntryOf(d'[file]);
      s3 == At(root, d', [], TreeOf(d), [Created(f, e)], Some(Batch(TreeOf(d)[f := e], [root + dir])))
    ensures Leads(s0, [Mutate(d', [root + file, root + dir])] + ([Load(2)] + ([Stat] + [])), s3)
  {
    UndoFacts(d, d', dir, file);
    BothReported(root, d, d', dir, file);
    var two := [root + file, root + dir];
    var s1 := Apply(s0, Mutate(d', two));
    assert s1.queue == two;
    LoadAll(s1);
    var s2 := At(root, d', [], TreeOf(d), [], Some(Batch(TreeOf(d), two)));
    StatStep(s2, file);
    assert Leads(s3, [], s3);
    LeadsBy(s2, Stat, s3, [], s3);
    LeadsBy(s1, Load(2), s2, [Stat] + [], s3);
    LeadsBy(s0, Mutate(d', two), s1, [Load(2)] + ([Stat] + []), s3);
  }

  /** It is undone before the batch looks at the directory. */
  lemma UndoUnmade(root: Path, d: Disk, d': Disk, dir: Path, file: Path, s3: State, s6: State)
    requires Adds(d, d', dir, file)
    requires var f, e := Join(file), EntryOf(d'[file]);
      && s3 == At(root, d', [], TreeOf(d), [Created(f, e)], Some(Batch(TreeOf(d)[f := e], [root + dir])))
      && s6 == At(root, d, [root + file, root + dir], TreeOf(d), [Created(f, e)], None)
    ensures Leads(s3, [Mutate(d, [root + file, root + dir])] + ([Stat] + ([Store] + [])), s6)
  {
    UndoFacts(d, d', dir, file);
    BothReported(root, d, d', dir, file);
    var two := [root + file, root + dir];
    var s4 := Apply(s3, Mutate(d, two));
    assert s4.queue == two;
    StatStep(s4, dir);
    var s5 := Apply(s4, Stat);
    assert s3.log + [] == s3.log && s4.batch.value.todo[1..] == [];
    assert s5 == At(root, d, two, TreeOf(d), s3.log, Some(Batch(TreeOf(d), [])));
    assert Apply(s5, Store) == s6;
    assert Leads(s6, [], s6);
    LeadsBy(s5, Store, s6, [], s6);
    LeadsBy(s4, Stat, s5, [Store] + [], s6);
    LeadsBy(s3, Mutate(d, two), s4, [Stat] + ([Store] + []), s6);
  }

  /** The next batch finds nothing to say. */
  lemma UndoDrained(root: Path, d: Disk, d': Disk, dir: Path, file: Path, s6: State, s10: State)
    requires Adds(d, d', dir, file)
    requires s6 == s10.(queue := [root + file, root + dir]) && s10 == At(root, d, [], TreeOf(d), s10.log, None)
    ensures Leads(s6, [Load(2)] + ([Stat] + ([Stat] + ([Store] + []))), s10)
  {
    UndoFacts(d, d', dir, file);
    var t, two := TreeOf(d), [root + file, root + dir];
    assert two[..2] == two && two[2..] == [] && two[1..] == [root + dir];
    var one := two[1..];
    assert one[1..] == [];
    var s7 := Apply(s6, Load(2));
    assert s7 == s10.(batch := Some(Batch(t, two)));
    StatStep(s7, file);
    var s8 := s10.(batch := Some(Batch(t, [root + dir])));
    assert s10.log + [] == s10.log;
    assert Apply(s7, Stat) == s8;
    StatStep(s8, dir);
    var s9 := s10.(batch := Some(Batch(t, [])));
    assert Apply(s8, Stat) == s9;
    assert Leads(s10, [], s10);
    LeadsBy(s9, Store, s10, [], s10);
    LeadsBy(s8, Stat, s9, [Store] + [], s10);
    LeadsBy(s7, Stat, s8, [Stat] + ([Store] + []), s10);
    LeadsBy(s6, Load(2), s7, [Stat] + ([Stat] + ([Store] + [])), s10);
  }

  /** A change that is undone in the middle of a batch. Everything is reported, nothing
      overlaps, no file turns into a directory, the queue runs empty and the index ends up
      right; yet the log says that the file was created and never that it went, so a mirror still
      has it. The run is not Told, which is what MirrorConverges asks for. */
  lemma UndoneMidBatch(root: Path, d: Disk, d': Disk, dir: Path, file: Path) returns (ls: seq<Label>, end: State)
    requires Adds(d, d', dir, file)
    ensures Leads(At(root, d, [], TreeOf(d), [], None), ls, end) && (forall l :: l in ls ==> WalkFree(l))
    ensures end.batch == None && end.queue == [] && end.disk == d && end.snapshot == TreeOf(d)
    ensures Join(file) !in end.snapshot && Join(file) in Replay(TreeOf(d), end.log)
  {
    UndoFacts(d, d', dir, file);
    var t, f, e := TreeOf(d), Join(file), EntryOf(d'[file]);
    var said := [Created(f, e)];
    var s0 := At(root, d, [], t, [], None);
    var s3 := At(root, d', [], t, said, Some(Batch(t[f := e], [root + dir])));
    var s6 := At(root, d, [root + file, root + dir], t, said, None);
    end := At(root, d, [], t, said, None);
    UndoMade(root, d, d', dir, file, s0, s3);
    UndoUnmade(root, d, d', dir, file, s3, s6);
    UndoDrained(root, d, d', dir, file, s6, end);
    var l1 := [Mutate(d', [root + file, root + dir])] + ([Load(2)] + ([Stat] + []));
    var l2 := [Mutate(d, [root + file, root + dir])] + ([Stat] + ([Store] + []));
    var l3 := [Load(2)] + ([Stat] + ([Stat] + ([Store] + [])));
    LeadsConcat(s0, l1, s3, l2, s6);
    LeadsConcat(s0, l1 + l2, s6, l3, end);
    ls := l1 + l2 + l3;
    assert Replay(t, said[..0]) == t;
  }

  // ---- from the start of a live index ----

  /** Left to itself, a walk in progress can finish. */
  lemma {:induction false} WalkOn(s: State) returns (ls: seq<Label>)
    requires s.walk.Some? && Ready(s.disk, s.walk.value)
    ensures Leads(s, ls, s.(walk := Some(Walk(TreeOf(s.disk), {}, {}))))
    ensures forall l :: l in ls ==> l.Visit? || l.List?
    decreases Unlisted(s.disk, s.walk.value.list), s.walk.value.visit
  {
    var d, w := s.disk, s.walk.value;
    var done := s.(walk := Some(Walk(TreeOf(d), {}, {})));
    if w.visit == {} && w.list == {} {
      ls := [];
      WalkedAll(d, w);
    } else {
      var l: Label;
      if w.visit != {} {
        var p :| p in w.visit;
        VisitReady(d, w, p);
        l := Visit(p);
      } else {
        var q :| q in w.list;
        ListReady(d, w, q);
        l := List(q);
      }
      var s' := Apply(s, l);
      var rest := WalkOn(s');
      ls := [l] + rest;
      LeadsBy(s, l, s', rest, done);
    }
  }

  /** A live index that is left alone becomes warm, and is then in the state from which the
      results about mirrors start. */
  lemma WarmStart(root: Path, d: Disk) returns (ls: seq<Label>)
    ensures var warm := At(root, d, [], TreeOf(d), [], None);
      Leads(Started(root, d), ls, warm) && Settled(warm)
  {
    var s0 := Started(root, d);
    StartReady(d);
    var walk := WalkOn(s0);
    var read := s0.(walk := Some(Walk(TreeOf(d), {}, {})));
    var warm := At(root, d, [], TreeOf(d), [], None);
    assert Leads(warm, [], warm);
    LeadsBy(read, StoreWalk, warm, [], warm);
    LeadsConcat(s0, walk, read, [StoreWalk] + [], warm);
    ls := walk + ([StoreWalk] + []);
    TreeOfClosed(d);
  }

  /** A run in which the watcher reports everything; nothing is said of overlaps. */
  ghost predicate Reaches(s: State, ls: seq<Label>, end: State) {
    Runs(s, ls) && AllReported(s, ls) && Run(s, ls) == end
  }

  lemma ReachesBy(s: State, l: Label, s': State, ls: seq<Label>, end: State)
    requires Enabled(s, l) && Reported(s, l) && Apply(s, l) == s' && Reaches(s', ls, end)
    ensures Reaches(s, [l] + ls, end)
  {
  }

  lemma {:induction false} LeadsThenReaches(s: State, a: seq<Label>, mid: State, b: seq<Label>, end: State)
    requires Leads(s, a, mid) && Reaches(mid, b, end)
    ensures Reaches(s, a + b, end)
    decreases |a|
  {
    if a == [] {
      assert a + b == b;
    } else {
      LeadsThenReaches(Apply(s, a[0]), a[1..], mid, b, end);
      assert (a + b)[1..] == a[1..] + b;
    }
  }

  /** `d'` differs from `d` only by one new file. */
  ghost predicate AddsFile(d: Disk, d': Disk, file: Path) {
    && file != [] && file !in d && file in d' && d'[file].File?
    && forall k :: Get(TreeOf(d), k) != Get(TreeOf(d'), k) ==> k == Join(file)
  }

  lemma FileReported(root: Path, d: Disk, d': Disk, file: Path)
    requires AddsFile(d, d', file)
    ensures Join(file) !in TreeOf(d) && Join(file) in TreeOf(d')
    ensures forall k :: Get(TreeOf(d), k) != Get(TreeOf(d'), k) ==> k in KeysOf(root, [root + file])
  {
    TreeAt(d, file);
    TreeAt(d', file);
    assert RelOf(root, root + file) == Some(file) && root + file in [root + file];
  }

  /** The one walk the server makes can lose a change. It has read the whole vault and not yet
      stored its tree when a file appears; a batch picks the file up and stores; then the walk
      stores. Everything was reported, and a batch overlapping the walk is the only thing that
      `Separate` forbids; nothing is queued or in progress, and the index has lost the file. */
  lemma WalkOverwritesABatch(root: Path, d: Disk, d': Disk, file: Path) returns (ls: seq<Label>, end: State)
    requires AddsFile(d, d', file)
    ensures Reaches(Started(root, d), ls, end) && forall l :: l in ls ==> !l.BeginWalk?
    ensures end == At(root, d', [], TreeOf(d), end.log, None)
    ensures Join(file) !in end.snapshot && Join(file) in TreeOf(end.disk)
  {
    FileReported(root, d, d', file);
    StartReady(d);
    var walk := WalkOn(Started(root, d));
    var read := Started(root, d).(walk := Some(Walk(TreeOf(d), {}, {})));
    var tail;
    tail, end := BatchThenWalk(root, d, d', file);
    LeadsThenReaches(Started(root, d), walk, read, tail, end);
    ls := walk + tail;
  }

  lemma BatchThenWalk(root: Path, d: Disk, d': Disk, file: Path) returns (ls: seq<Label>, end: State)
    requires AddsFile(d, d', file)
    ensures Reaches(Started(root, d).(walk := Some(Walk(TreeOf(d), {}, {}))), ls, end)
    ensures (forall l :: l in ls ==> !l.BeginWalk?) && end == At(root, d', [], TreeOf(d), end.log, None)
  {
    var f, e, one := Join(file), EntryOf(d'[file]), [root + file];
    var s1 := Started(root, d).(walk := Some(Walk(TreeOf(d), {}, {})));
    var s2 := s1.(disk := d', queue := one);
    var s3 := s2.(queue := [], batch := Some(Batch(map[], one)));
    var s4 := s3.(batch := Some(Batch(map[f := e], [])), log := [Created(f, e)]);
    var s5 := s4.(batch := None, snapshot := map[f := e]);
    end := At(root, d', [], TreeOf(d), [Created(f, e)], None);
    FileReported(root, d, d', file);
    OneFileBatch(s3, file);
    LoadAll(s2);
    assert Reaches(end, [], end);
    ls := [];
    ReachesBy(s5, StoreWalk, end, ls, end);
    ls := [StoreWalk] + ls;
    ReachesBy(s4, Store, s5, ls, end);
    ls := [Store] + ls;
    ReachesBy(s3, Stat, s4, ls, end);
    ls := [Stat] + ls;
    ReachesBy(s2, Load(1), s3, ls, end);
    ls := [Load(1)] + ls;
    assert s1.queue + one == one;
    ReachesBy(s1, Mutate(d', one), s2, ls, end);
    ls := [Mutate(d', one)] + ls;
  }

  lemma LoadAll(s: State)
    requires s.batch == None && s.queue != []
    ensures Enabled(s, Load(|s.queue|))
    ensures Apply(s, Load(|s.queue|)) == s.(queue := [], batch := Some(Batch(s.snapshot, s.queue)))
  {
    assert s.queue[..|s.queue|] == s.queue && s.queue[|s.queue|..] == [];
  }

  lemma OneFileBatch(s: State, file: Path)
    requires file != [] && file in s.disk && s.disk[file].File?
    requires s.batch == Some(Batch(map[], [s.root + file])) && s.log == []
    ensures var f, e := Join(file), EntryOf(s.disk[file]);
      Apply(s, Stat) == s.(batch := Some(Batch(map[f := e], [])), log := [Created(f, e)])
  {
    StatStep(s, file);
    assert [s.root + file][1..] == [];
  }

  /** The other way round it is worse. A batch that was loaded before the first walk has stored
      works on an empty tree; if it stores after the walk, the index holds its paths and nothing
      else of the vault. */
  lemma BatchOverwritesTheWalk(root: Path, d: Disk, d': Disk, file: Path) returns (ls: seq<Label>, end: State)
    requires AddsFile(d, d', file)
    ensures Reaches(Started(root, d), ls, end) && forall l :: l in ls ==> !l.BeginWalk?
    ensures end == At(root, d', [], map[Join(file) := EntryOf(d'[file])], end.log, None)
  {
    var one := [root + file];
    var s0 := Started(root, d);
    var s1 := s0.(disk := d', queue := one);
    var s2 := s1.(queue := [], batch := Some(Batch(map[], one)));
    FileReported(root, d, d', file);
    LoadAll(s1);
    assert s0.queue + one == one;
    ls, end := WalkThenBatch(root, d', file);
    ReachesBy(s1, Load(1), s2, ls, end);
    ls := [Load(1)] + ls;
    ReachesBy(s0, Mutate(d', one), s1, ls, end);
    ls := [Mutate(d', one)] + ls;
  }

  lemma WalkThenBatch(root: Path, d: Disk, file: Path) returns (ls: seq<Label>, end: State)
    requires file != [] && file in d && d[file].File?
    ensures Reaches(Started(root, d).(batch := Some(Batch(map[], [root + file]))), ls, end)
    ensures forall l :: l in ls ==> !l.BeginWalk?
    ensures end == At(root, d, [], map[Join(file) := EntryOf(d[file])], end.log, None)
  {
    var s2 := Started(root, d).(batch := Some(Batch(map[], [root + file])));
    StartReady(d);
    var walk := WalkOn(s2);
    var tail;
    tail, end := BatchStoresLast(root, d, file);
    LeadsThenReaches(s2, walk, s2.(walk := Some(Walk(TreeOf(d), {}, {}))), tail, end);
    ls := walk + tail;
  }

  lemma BatchStoresLast(root: Path, d: Disk, file: Path) returns (ls: seq<Label>, end: State)
    requires file != [] && file in d && d[file].File?
    ensures var s := Started(root, d).(batch := Some(Batch(map[], [root + file])));
      Reaches(s.(walk := Some(Walk(TreeOf(d), {}, {}))), ls, end)
    ensures (forall l :: l in ls ==> !l.BeginWalk?)
    ensures end == At(root, d, [], map[Join(file) := EntryOf(d[file])], end.log, None)
  {
    var f, e := Join(file), EntryOf(d[file]);
    var s4 := At(root, d, [], TreeOf(d), [], Some(Batch(map[], [root + file])));
    var s5 := At(root, d, [], TreeOf(d), [Created(f, e)], Some(Batch(map[f := e], [])));
    end := At(root, d, [], map[f := e], [Created(f, e)], None);
    OneFileBatch(s4, file);
    assert Reaches(end, [], end);
    ls := [];
    ReachesBy(s5, Store, end, ls, end);
    ls := [Store] + ls;
    ReachesBy(s4, Stat, s5, ls, end);
    ls := [Stat] + ls;
    ReachesBy(s4.(snapshot := map[], walk := Some(Walk(TreeOf(d), {}, {}))), StoreWalk, s4, ls, end);
    ls := [StoreWalk] + ls;
  }

  /** A live index meets this situation: warm, with a batch that is about to look at a new file. */
  lemma NewFileInBatch(root: Path, d: Disk, d': Disk, file: Path) returns (ls: seq<Label>)
    requires AddsFile(d, d', file)
    ensures Leads(Started(root, d), ls, At(root, d', [], TreeOf(d), [], Some(Batch(TreeOf(d), [root + file]))))
    ensures var s := At(root, d', [], TreeOf(d), [], Some(Batch(TreeOf(d), [root + file])));
      Enabled(s, Stat) && var subscribed := Apply(s, Stat); Runs(subscribed, [Store]) && Told(subscribed, [Store])
  {
    FileReported(root, d, d', file);
    var warm, one := At(root, d, [], TreeOf(d), [], None), [root + file];
    var start := WarmStart(root, d);
    var s1 := At(root, d', one, TreeOf(d), [], None);
    var s2 := At(root, d', [], TreeOf(d), [], Some(Batch(TreeOf(d), one)));
    assert [] + one == one && one[1..] == [];
    LoadAll(s1);
    assert Leads(s2, [], s2);
    LeadsBy(s1, Load(1), s2, [], s2);
    LeadsBy(warm, Mutate(d', one), s1, [Load(1)] + [], s2);
    LeadsConcat(Started(root, d), start, warm, [Mutate(d', one)] + ([Load(1)] + []), s2);
    ls := start + ([Mutate(d', one)] + ([Load(1)] + []));
  }

  /** Events go out before the snapshot is stored. A client that subscribes between the stat of a
      new file and the store, and loads the snapshot before the store, misses the file for good:
      however the run goes on, as long as no later event is about the file, the server has it
      and the client never will. */
  lemma SubscribedMidBatch(root: Path, d: Disk, d': Disk, file: Path, before: seq<Label>, after: seq<Label>)
    requires AddsFile(d, d', file)
    requires var s := At(root, d', [], TreeOf(d), [], Some(Batch(TreeOf(d), [root + file])));
      Enabled(s, Stat) && var subscribed := Apply(s, Stat);
      && Runs(subscribed, before + after) && Told(subscribed, before + after) && !Stores(before)
      && var end := Run(subscribed, before + after);
      end.batch == None && |subscribed.log| <= |end.log| && LastEffect(end.log[|subscribed.log|..], Join(file)) == None
    ensures var subscribed := Apply(At(root, d', [], TreeOf(d), [], Some(Batch(TreeOf(d), [root + file]))), Stat);
      && Runs(subscribed, before)
      && var loaded, end := Run(subscribed, before).snapshot, Run(subscribed, before + after);
      Join(file) in end.snapshot && Join(file) !in Replay(loaded, end.log[|subscribed.log|..])
  {
    var s := At(root, d', [], TreeOf(d), [], Some(Batch(TreeOf(d), [root + file])));
    FileReported(root, d, d', file);
    StatStep(s, file);
    MissedForGood(Apply(s, Stat), before, after, Join(file));
  }

  lemma MissedForGood(s: State, before: seq<Label>, after: seq<Label>, k: string)
    requires Runs(s, before + after) && Told(s, before + after) && !Stores(before)
    requires k !in s.snapshot && k in ToPublish(s)
    requires var end := Run(s, before + after);
      end.batch == None && |s.log| <= |end.log| && LastEffect(end.log[|s.log|..], k) == None
    ensures Runs(s, before)
    ensures var loaded, end := Run(s, before).snapshot, Run(s, before + after);
      k in end.snapshot && k !in Replay(loaded, end.log[|s.log|..])
  {
    RunConcat(s, before, after);
    ToldConcat(s, before, after);
    var base, from, mid, end := ToPublish(s), |s.log|, Run(s, before), Run(s, before + after);
    assert s.log[from..] == [];
    var cut := LoadedSnapshot(base, from, s, before);
    ToldFollows(base, from, s, before + after);
    ReplayAt(base, end.log[from..], k);
    ReplayAt(mid.snapshot, end.log[from..], k);
  }

  /** A silent stat need not last: a known file that is found to be a directory, and then to be
      gone, is told as a deletion in the end, and a mirror is right again. */
  lemma SilentYetRight(t: Tree, k: string)
    requires k in t && t[k] != DirEntry
    ensures var o1, o2 := Seen(k, Some(DirEntry)), Seen(k, None);
      var t1 := StepTree(t, o1);
      && Silent(t, o1) && Replay(t, StepEvents(t, o1)) != t1
      && Replay(t, StepEvents(t, o1) + StepEvents(t1, o2)) == StepTree(t1, o2)
  {
    var o1, o2 := Seen(k, Some(DirEntry)), Seen(k, None);
    var t1 := StepTree(t, o1);
    assert StepEvents(t, o1) == [] && StepEvents(t1, o2) == [Deleted(k)];
    assert [] + [Deleted(k)] == [Deleted(k)] && [Deleted(k)][..0] == [];
    assert Get(t, k) != Get(t1, k);
    assert Prune(t, k) == Prune(t1, k);
  }

  /** A batch that the watcher delivers as an error leaves the index wrong with nothing queued. */
  lemma DroppedBatch(root: Path, d: Disk, d': Disk, file: Path) returns (ls: seq<Label>, end: State)
    requires AddsFile(d, d', file)
    ensures Reaches(Started(root, d), ls, end) && end == At(root, d', [], TreeOf(d), [], None)
    ensures Join(file) !in end.snapshot && Join(file) in TreeOf(end.disk)
  {
    FileReported(root, d, d', file);
    var warm, one := At(root, d, [], TreeOf(d), [], None), [root + file];
    var start := WarmStart(root, d);
    var s1 := At(root, d', one, TreeOf(d), [], None);
    end := At(root, d', [], TreeOf(d), [], None);
    assert warm.queue + one == one && one[1..] == [];
    assert Reaches(end, [], end);
    ReachesBy(s1, Discard(1), end, [], end);
    ReachesBy(warm, Mutate(d', one), s1, [Discard(1)] + [], end);
    LeadsThenReaches(Started(root, d), start, warm, [Mutate(d', one)] + ([Discard(1)] + []), end);
    ls := start + ([Mutate(d', one)] + ([Discard(1)] + []));
  }
}
