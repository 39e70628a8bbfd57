/** The live index as a protocol: a changing vault, the queue of reported paths, the watcher
    thread working through batches, full walks, and subscribers replaying the event log. */
module IndexSystem {
  import opened Wrappers
  import opened Sequences
  import opened Keys
  import opened Vault
  import opened TreeWalk
  import opened Index

  /** A batch in progress: the working copy of the tree, and the paths still to be stat'ed. */
  datatype Batch = Batch(next: Tree, todo: seq<Path>)

  datatype State = State(
    root: Path, disk: Disk, queue: seq<Path>,
    snapshot: Tree, log: seq<Event>,
    batch: Option<Batch>, walk: Option<Walk>)

  /** One atomic step. `Mutate` carries the vault afterwards and the paths the watcher reports;
      `Discard` is a batch that the watcher delivers as an error, which drops its paths. */
  datatype Label =
    | Mutate(disk: Disk, reported: seq<Path>)
    | Load(n: nat) | Discard(n: nat) | Stat | Store
    | BeginWalk | Visit(p: Path) | List(p: Path) | StoreWalk

  /** `build_live` once the watcher is on: empty tree, and the first walk about to run. */
  function Started(root: Path, d: Disk): State {
    State(root, d, [], map[], [], None, Some(StartWalk()))
  }

  predicate Enabled(s: State, l: Label) {
    match l
    case Mutate(_, _) => true
    case Load(n) => s.batch == None && 0 < n <= |s.queue|
    case Discard(n) => s.batch == None && 0 < n <= |s.queue|
    case Stat => s.batch.Some? && s.batch.value.todo != []
    case Store => s.batch.Some? && s.batch.value.todo == []
    case BeginWalk => s.walk == None
    case Visit(p) => s.walk.Some? && p in s.walk.value.visit
    case List(p) => s.walk.Some? && p in s.walk.value.list
    case StoreWalk => s.walk.Some? && s.walk.value.visit == {} && s.walk.value.list == {}
  }

  function Seeing(s: State): seq<Seen>
    requires Enabled(s, Stat)
  {
    ObserveOne(s.root, s.batch.value.todo[0], s.disk)
  }

  function Apply(s: State, l: Label): State
    requires Enabled(s, l)
  {
    match l
    case Mutate(d, reported) => s.(disk := d, queue := s.queue + reported)
    case Load(n) => s.(batch := Some(Batch(s.snapshot, s.queue[..n])), queue := s.queue[n..])
    case Discard(n) => s.(queue := s.queue[n..])
    case Stat =>
      var b := s.batch.value;
      s.(batch := Some(Batch(Applied(b.next, Seeing(s)), b.todo[1..])),
         log := s.log + Emitted(b.next, Seeing(s)))
    case Store => s.(snapshot := s.batch.value.next, batch := None)
    case BeginWalk => s.(walk := Some(StartWalk()))
    case Visit(p) => s.(walk := Some(VisitStep(s.disk, s.walk.value, p)))
    case List(p) => s.(walk := Some(ListStep(s.disk, s.walk.value, p)))
    case StoreWalk => s.(snapshot := s.walk.value.acc, walk := None)
  }

  predicate Runs(s: State, ls: seq<Label>)
    decreases |ls|
  {
    ls == [] || (Enabled(s, ls[0]) && Runs(Apply(s, ls[0]), ls[1..]))
  }

  function Run(s: State, ls: seq<Label>): State
    requires Runs(s, ls)
    decreases |ls|
  {
    if ls == [] then s else Run(Apply(s, ls[0]), ls[1..])
  }

  lemma {:induction false} RunConcat(s: State, a: seq<Label>, b: seq<Label>)
    requires Runs(s, a + b)
    ensures Runs(s, a) && Runs(Run(s, a), b) && Run(s, a + b) == Run(Run(s, a), b)
    decreases |a|
  {
    if a == [] {
      assert a + b == b;
    } else {
      assert (a + b)[1..] == a[1..] + b;
      RunConcat(Apply(s, a[0]), a[1..], b);
    }
  }

  // ---- a batch of the protocol is one call of ApplyPaths ----

  /** The disks that the stats of a run look at. */
  function SeenDisks(s: State, ls: seq<Label>): seq<Disk>
    requires Runs(s, ls)
    decreases |ls|
  {
    if ls == [] then []
    else (if ls[0].Stat? then [s.disk] else []) + SeenDisks(Apply(s, ls[0]), ls[1..])
  }

  lemma {:induction false} AppliedAppend(t: Tree, a: seq<Seen>, b: seq<Seen>)
    ensures Applied(t, a + b) == Applied(Applied(t, a), b)
  {
    if b == [] {
      assert a + b == a;
    } else {
      AppliedAppend(t, a, b[..|b| - 1]);
      assert (a + b)[..|a + b| - 1] == a + b[..|b| - 1];
    }
  }

  lemma {:induction false} EmittedAppend(t: Tree, a: seq<Seen>, b: seq<Seen>)
    ensures Emitted(t, a + b) == Emitted(t, a) + Emitted(Applied(t, a), b)
  {
    if b == [] {
      EmittedNoMore(t, a);
    } else {
      SplitLast(b);
      EmittedAppend(t, a, b[..|b| - 1]);
      EmittedOneMore(t, a, b[..|b| - 1], b[|b| - 1], b);
    }
  }

  lemma EmittedNoMore(t: Tree, a: seq<Seen>)
    ensures Emitted(t, a + []) == Emitted(t, a) + Emitted(Applied(t, a), [])
  {
    NoneMore(a);
    NoneMore(Emitted(t, a));
  }

  lemma EmittedOneMore(t: Tree, a: seq<Seen>, init: seq<Seen>, o: Seen, b: seq<Seen>)
    requires b == init + [o]
    requires Emitted(t, a + init) == Emitted(t, a) + Emitted(Applied(t, a), init)
    ensures Emitted(t, a + b) == Emitted(t, a) + Emitted(Applied(t, a), b)
  {
    AppliedAppend(t, a, init);
    AppliedConcat(t, a + init, o);
    AppliedConcat(Applied(t, a), init, o);
    ConcatAssociates(a, init, [o]);
    ConcatAssociates(Emitted(t, a), Emitted(Applied(t, a), init), StepEvents(Applied(t, a + init), o));
  }

  lemma ObserveOnly(root: Path, p: Path, d: Disk)
    ensures Observe(root, [p], [d]) == ObserveOne(root, p, d)
  {
    var ps, ds := [p], [d];
    assert ps[..0] == [] && ds[..0] == [];
    assert [] + ObserveOne(root, p, d) == ObserveOne(root, p, d);
  }

  lemma {:induction false} ObserveFirst(root: Path, p: Path, d: Disk, paths: seq<Path>, disks: seq<Disk>)
    requires |disks| == |paths|
    ensures Observe(root, [p] + paths, [d] + disks) == ObserveOne(root, p, d) + Observe(root, paths, disks)
  {
    if paths == [] {
      assert [p] + paths == [p] && [d] + disks == [d];
      ObserveOnly(root, p, d);
      assert ObserveOne(root, p, d) + [] == ObserveOne(root, p, d);
    } else {
      var n := |paths| - 1;
      var ps, ds := paths[..n], disks[..n];
      FrontAfter(p, paths);
      FrontAfter(d, disks);
      ObserveFirst(root, p, d, ps, ds);
      ConcatAssociates(ObserveOne(root, p, d), Observe(root, ps, ds), ObserveOne(root, paths[n], disks[n]));
    }
  }

  /** A batch in progress, whatever else happens meanwhile, has done to its working tree and to
      the log what ApplyPaths does with the paths stat'ed so far, on the disks they met. */
  lemma {:induction false} BatchIsApplyPaths(s: State, ls: seq<Label>)
    requires Runs(s, ls) && s.batch.Some? && forall l :: l in ls ==> !l.Load? && !l.Store?
    ensures var b, seen, end := s.batch.value, SeenDisks(s, ls), Run(s, ls);
      && |seen| <= |b.todo| && end.root == s.root
      && var obs := Observe(s.root, b.todo[..|seen|], seen);
      && end.batch == Some(Batch(Applied(b.next, obs), b.todo[|seen|..]))
      && end.log == s.log + Emitted(b.next, obs)
    decreases |ls|
  {
    var b := s.batch.value;
    if ls == [] {
      assert b.todo[..0] == [] && b.todo[0..] == b.todo && s.log + [] == s.log;
    } else {
      var s', rest := Apply(s, ls[0]), ls[1..];
      assert ls[0] in ls && forall l :: l in rest ==> l in ls;
      BatchIsApplyPaths(s', rest);
      var seen' := SeenDisks(s', rest);
      if ls[0].Stat? {
        StatThenRest(s.root, s.batch.value.next, s.log, s.batch.value.todo, s.disk, seen');
      } else {
        assert SeenDisks(s, ls) == seen';
      }
    }
  }

  lemma StatThenRest(root: Path, t: Tree, log: seq<Event>, todo: seq<Path>, d: Disk, seen: seq<Disk>)
    requires |seen| < |todo|
    ensures var first, all := ObserveOne(root, todo[0], d), [d] + seen;
      var obs, obs' := Observe(root, todo[..|all|], all), Observe(root, todo[1..][..|seen|], seen);
      && Applied(Applied(t, first), obs') == Applied(t, obs) && todo[1..][|seen|..] == todo[|all|..]
      && (log + Emitted(t, first)) + Emitted(Applied(t, first), obs') == log + Emitted(t, obs)
  {
    var all := [d] + seen;
    ObserveSplit(root, todo, d, seen);
    RestOfRest(todo, |seen|);
    InTwoParts(t, log, ObserveOne(root, todo[0], d), Observe(root, todo[1..][..|seen|], seen),
               Observe(root, todo[..|all|], all));
  }

  lemma RestOfRest<T>(xs: seq<T>, n: nat)
    requires n < |xs|
    ensures xs[1..][n..] == xs[n + 1..]
  {
  }

  lemma ObserveSplit(root: Path, todo: seq<Path>, d: Disk, seen: seq<Disk>)
    requires |seen| < |todo|
    ensures Observe(root, todo[..|[d] + seen|], [d] + seen) ==
            ObserveOne(root, todo[0], d) + Observe(root, todo[1..][..|seen|], seen)
  {
    assert todo[..|seen| + 1] == [todo[0]] + todo[1..][..|seen|];
    ObserveFirst(root, todo[0], d, todo[1..][..|seen|], seen);
  }

  lemma InTwoParts(t: Tree, log: seq<Event>, first: seq<Seen>, more: seq<Seen>, all: seq<Seen>)
    requires all == first + more
    ensures Applied(t, all) == Applied(Applied(t, first), more)
    ensures log + Emitted(t, all) == (log + Emitted(t, first)) + Emitted(Applied(t, first), more)
  {
    AppliedAppend(t, first, more);
    EmittedAppend(t, first, more);
    ConcatAssociates(log, Emitted(t, first), Emitted(Applied(t, first), more));
  }

  // ---- no silent divergence ----

  /** The watcher reports every key that a change of the vault touches. */
  ghost predicate Reported(s: State, l: Label) {
    l.Mutate? ==>
      forall k :: Get(TreeOf(s.disk), k) != Get(TreeOf(l.disk), k) ==> k in KeysOf(s.root, l.reported)
  }

  /** It also delivers what it reports. */
  ghost predicate FullyReported(s: State, l: Label) {
    Reported(s, l) && !l.Discard?
  }

  /** Full walks and batches do not overlap. */
  predicate Separate(s: State, l: Label) {
    (l.Load? ==> s.walk == None) && (l.BeginWalk? ==> s.batch == None)
  }

  ghost predicate Diligent(s: State, ls: seq<Label>)
    requires Runs(s, ls)
    decreases |ls|
  {
    ls == [] || (FullyReported(s, ls[0]) && Separate(s, ls[0]) && Diligent(Apply(s, ls[0]), ls[1..]))
  }

  ghost function Queued(s: State): set<string> { KeysOf(s.root, s.queue) }

  /** Keys whose change has been reported and not yet looked at. */
  ghost function Unprocessed(s: State): set<string> {
    Queued(s) + if s.batch.Some? then KeysOf(s.root, s.batch.value.todo) else {}
  }

  /** The tree that will be published next if nothing more happens. */
  function ToPublish(s: State): Tree {
    if s.batch.Some? then s.batch.value.next else s.snapshot
  }

  /** Wherever the tree is wrong about the vault, the key is still waiting to be looked at. */
  ghost predicate NoLoss(s: State) {
    && !(s.batch.Some? && s.walk.Some?)
    && if s.walk.Some? then Covers(s.disk, s.walk.value, Queued(s))
       else forall k :: Get(ToPublish(s), k) != Get(TreeOf(s.disk), k) ==> k in Unprocessed(s)
  }

  lemma KeysOfConcat(root: Path, a: seq<Path>, b: seq<Path>)
    ensures KeysOf(root, a + b) == KeysOf(root, a) + KeysOf(root, b)
  {
  }

  lemma CoversAfterChange(d: Disk, d': Disk, w: Walk, stale: set<string>, more: set<string>)
    requires Covers(d, w, stale)
    requires forall k :: Get(TreeOf(d), k) != Get(TreeOf(d'), k) ==> k in more
    ensures Covers(d', w, stale + more)
  {
    forall p | p in d' && p != [] && Join(p) !in stale + more
      ensures p in w.visit || Get(w.acc, Join(p)) == StatOf(d', p) || Ahead(w.list, p)
    {
      TreeAt(d, p);
      TreeAt(d', p);
      assert StatOf(d, p) == StatOf(d', p);
    }
    forall k | k in w.acc && k !in stale + more ensures k in TreeOf(d') {
      assert Get(TreeOf(d), k) == Get(TreeOf(d'), k);
    }
  }

  lemma ObservedAt(s: State)
    requires Enabled(s, Stat)
    ensures forall o :: o in Seeing(s) ==> o.entry == Get(TreeOf(s.disk), o.rel)
    ensures KeysOf(s.root, s.batch.value.todo) ==
            KeysOf(s.root, s.batch.value.todo[1..]) + set o | o in Seeing(s) :: o.rel
  {
    var todo := s.batch.value.todo;
    assert todo == [todo[0]] + todo[1..];
    KeysOfConcat(s.root, [todo[0]], todo[1..]);
    var rel := RelOf(s.root, todo[0]);
    var rels := set o | o in Seeing(s) :: o.rel;
    if rel.Some? {
      TreeAt(s.disk, rel.value);
      assert Seeing(s) == [Seen(Join(rel.value), StatOf(s.disk, rel.value))];
      assert Seeing(s)[0].rel in rels;
      assert KeysOf(s.root, [todo[0]]) == {Join(rel.value)} == rels;
    } else {
      assert KeysOf(s.root, [todo[0]]) == {} == rels;
    }
  }

  /** A step on one observation makes the tree right there and wrong nowhere. */
  lemma StepRepairs(t: Tree, obs: seq<Seen>, truth: Tree, k: string)
    requires Truthful(obs, truth) && Closed(truth)
    requires Get(Applied(t, obs), k) != Get(truth, k)
    ensures Get(t, k) != Get(truth, k) && !Mentions(obs, k)
  {
  }

  lemma StatNoLoss(s: State)
    requires NoLoss(s) && Enabled(s, Stat)
    ensures NoLoss(Apply(s, Stat))
  {
    var s' := Apply(s, Stat);
    ObservedAt(s);
    TreeOfClosed(s.disk);
    forall k | Get(ToPublish(s'), k) != Get(TreeOf(s'.disk), k) ensures k in Unprocessed(s') {
      StepRepairs(s.batch.value.next, Seeing(s), TreeOf(s.disk), k);
    }
  }

  lemma MutateNoLoss(s: State, l: Label)
    requires NoLoss(s) && l.Mutate? && FullyReported(s, l)
    ensures NoLoss(Apply(s, l))
  {
    KeysOfConcat(s.root, s.queue, l.reported);
    if s.walk.Some? {
      CoversAfterChange(s.disk, l.disk, s.walk.value, Queued(s), KeysOf(s.root, l.reported));
    }
  }

  lemma WalkNoLoss(s: State, l: Label)
    requires NoLoss(s) && Enabled(s, l) && Separate(s, l)
    requires l.BeginWalk? || l.Visit? || l.List? || l.StoreWalk?
    ensures NoLoss(Apply(s, l))
  {
    match l
    case BeginWalk => StartCovers(s.disk, Queued(s));
    case Visit(p) => VisitCovers(s.disk, s.walk.value, Queued(s), p);
    case List(p) => ListCovers(s.disk, s.walk.value, Queued(s), p);
    case StoreWalk => DoneCovers(s.disk, s.walk.value, Queued(s));
  }

  lemma StepNoLoss(s: State, l: Label)
    requires NoLoss(s) && Enabled(s, l) && FullyReported(s, l) && Separate(s, l)
    ensures NoLoss(Apply(s, l))
  {
    match l
    case Mutate(_, _) => MutateNoLoss(s, l);
    case Load(n) =>
      assert s.queue == s.queue[..n] + s.queue[n..];
      KeysOfConcat(s.root, s.queue[..n], s.queue[n..]);
    case Stat => StatNoLoss(s);
    case Store =>
    case _ => WalkNoLoss(s, l);
  }

  /** Over every run, however changes, walks and batches interleave. */
  lemma {:induction false} RunNoLoss(s: State, ls: seq<Label>)
    requires NoLoss(s) && Runs(s, ls) && Diligent(s, ls)
    ensures NoLoss(Run(s, ls))
    decreases |ls|
  {
    if ls != [] {
      StepNoLoss(s, ls[0]);
      RunNoLoss(Apply(s, ls[0]), ls[1..]);
    }
  }

  /** From the start of a live index on, the tree about to be published differs from the vault
      only at keys whose change is still queued or in the rest of the running batch; so once
      everything has been looked at, the snapshot is what a fresh walk would return. */
  lemma NoSilentDivergence(root: Path, d: Disk, ls: seq<Label>)
    requires Runs(Started(root, d), ls) && Diligent(Started(root, d), ls)
    ensures var s := Run(Started(root, d), ls);
      s.walk == None ==>
        && (forall k :: Get(ToPublish(s), k) != Get(TreeOf(s.disk), k) ==> k in Unprocessed(s))
        && (s.batch == None && Queued(s) == {} ==> s.snapshot == TreeOf(s.disk))
  {
    LiveIndexNoLoss(root, d, ls);
    var s := Run(Started(root, d), ls);
    if s.walk == None && s.batch == None && Queued(s) == {} {
      SameTree(s.snapshot, TreeOf(s.disk));
    }
  }

  // ---- mirrors ----

  predicate WalkFree(l: Label) {
    l.Mutate? || l.Load? || l.Discard? || l.Stat? || l.Store?
  }

  /** No full walk replaces the snapshot, and no stat changes the tree without an event. */
  predicate Told(s: State, ls: seq<Label>)
    requires Runs(s, ls)
    decreases |ls|
  {
    ls == [] ||
      (&& WalkFree(ls[0])
       && (ls[0].Stat? ==> forall o :: o in Seeing(s) ==> !Silent(s.batch.value.next, o))
       && Told(Apply(s, ls[0]), ls[1..]))
  }

  /** Relative to a base tree and a position in the log, both the snapshot and the tree being
      worked on are replays: the snapshot of the log up to `cut`, the other of all of it. */
  ghost predicate Mirrored(base: Tree, from: nat, cut: nat, s: State) {
    && from <= cut <= |s.log|
    && s.snapshot == Replay(base, s.log[from..cut])
    && ToPublish(s) == Replay(base, s.log[from..])
    && (s.batch == None ==> cut == |s.log|)
  }

  lemma SingleReplayExactly(t: Tree, obs: seq<Seen>)
    requires |obs| <= 1
    ensures Replay(t, Emitted(t, obs)) == Applied(t, obs) <==> forall o :: o in obs ==> !Silent(t, o)
  {
    if obs != [] {
      assert obs == [obs[0]];
      OneSeen(t, obs[0]);
      StepReplay(t, obs[0]);
    }
  }

  lemma OneSeen(t: Tree, o: Seen)
    ensures Applied(t, [o]) == StepTree(t, o) && Emitted(t, [o]) == StepEvents(t, o)
  {
    assert [] + [o] == [o];
    AppliedConcat(t, [], o);
    assert [] + StepEvents(t, o) == StepEvents(t, o);
  }

  lemma StatMirrored(base: Tree, from: nat, cut: nat, s: State)
    requires Mirrored(base, from, cut, s) && Enabled(s, Stat)
    requires forall o :: o in Seeing(s) ==> !Silent(s.batch.value.next, o)
    ensures Mirrored(base, from, cut, Apply(s, Stat))
  {
    var t, obs := s.batch.value.next, Seeing(s);
    SingleReplayExactly(t, obs);
    LogGrows(base, from, cut, s.log, Emitted(t, obs));
  }

  lemma LogGrows(base: Tree, from: nat, cut: nat, log: seq<Event>, events: seq<Event>)
    requires from <= cut <= |log|
    ensures (log + events)[from..cut] == log[from..cut]
    ensures Replay(base, (log + events)[from..]) == Replay(Replay(base, log[from..]), events)
  {
    assert (log + events)[from..] == log[from..] + events;
    ReplayConcat(base, log[from..], events);
  }

  lemma StepMirrored(base: Tree, from: nat, cut: nat, s: State, l: Label) returns (cut': nat)
    requires Mirrored(base, from, cut, s) && Enabled(s, l) && WalkFree(l)
    requires l.Stat? ==> forall o :: o in Seeing(s) ==> !Silent(s.batch.value.next, o)
    ensures Mirrored(base, from, cut', Apply(s, l))
    ensures cut <= cut' && s.log <= Apply(s, l).log
  {
    cut' := cut;
    match l {
      case Stat => StatMirrored(base, from, cut, s);
      case Store =>
        cut' := |s.log|;
        assert s.log[from..] == s.log[from..cut'];
      case Load(_) =>
        assert s.log[from..] == s.log[from..cut];
      case Mutate(_, _) =>
      case Discard(_) =>
    }
  }

  lemma {:induction false} RunMirrored(base: Tree, from: nat, cut: nat, s: State, ls: seq<Label>) returns (cut': nat)
    requires Mirrored(base, from, cut, s) && Runs(s, ls) && Told(s, ls)
    ensures Mirrored(base, from, cut', Run(s, ls))
    ensures cut <= cut' && s.log <= Run(s, ls).log
    decreases |ls|
  {
    cut' := cut;
    if ls != [] {
      cut' := StepMirrored(base, from, cut, s, ls[0]);
      cut' := RunMirrored(base, from, cut', Apply(s, ls[0]), ls[1..]);
    }
  }

  /** At every point of the run the log reproduces the tree being worked on. */
  predicate KeepsUp(base: Tree, from: nat, s: State, ls: seq<Label>)
    requires Runs(s, ls) && from <= |s.log|
    decreases |ls|
  {
    && ToPublish(s) == Replay(base, s.log[from..])
    && (ls == [] || KeepsUp(base, from, Apply(s, ls[0]), ls[1..]))
  }

  /** A mirror follows the server step by step exactly when the run never changes the tree
      without saying so. */
  lemma {:induction false} MirrorKeepsUpExactly(base: Tree, from: nat, s: State, ls: seq<Label>)
    requires Runs(s, ls) && from <= |s.log| && (forall l :: l in ls ==> WalkFree(l))
    requires ToPublish(s) == Replay(base, s.log[from..])
    ensures KeepsUp(base, from, s, ls) <==> Told(s, ls)
    decreases |ls|
  {
    if ls != [] {
      var s' := Apply(s, ls[0]);
      if ls[0].Stat? {
        var t, obs := s.batch.value.next, Seeing(s);
        LogGrows(base, from, from, s.log, Emitted(t, obs));
        SingleReplayExactly(t, obs);
      }
      if ToPublish(s') == Replay(base, s'.log[from..]) {
        MirrorKeepsUpExactly(base, from, s', ls[1..]);
      }
    }
  }

  /** Told events carry the tree being worked on from any point of the run to its end. */
  lemma {:induction false} ToldFollows(base: Tree, from: nat, s: State, ls: seq<Label>)
    requires Runs(s, ls) && Told(s, ls) && from <= |s.log| && ToPublish(s) == Replay(base, s.log[from..])
    ensures var end := Run(s, ls);
      s.log <= end.log && ToPublish(end) == Replay(base, end.log[from..]) && end.walk == s.walk
    decreases |ls|
  {
    if ls != [] {
      if ls[0].Stat? {
        var t, obs := s.batch.value.next, Seeing(s);
        LogGrows(base, from, from, s.log, Emitted(t, obs));
        SingleReplayExactly(t, obs);
      }
      ToldFollows(base, from, Apply(s, ls[0]), ls[1..]);
    }
  }

  /** A mirror that replays the log of such a run never meets an event that does not fit: what is
      announced as created it does not have, what is announced as modified or deleted it has. */
  lemma MirrorEventsFit(s: State, ls: seq<Label>, i: nat)
    requires Runs(s, ls) && Told(s, ls) && |s.log| <= i < |Run(s, ls).log|
    ensures var log := Run(s, ls).log; Fits(Replay(ToPublish(s), log[|s.log|..i]), log[i])
  {
    assert s.log[|s.log|..] == [];
    RunEventsFit(ToPublish(s), |s.log|, s, ls, i);
  }

  lemma {:induction false} RunEventsFit(base: Tree, from: nat, s: State, ls: seq<Label>, i: nat)
    requires Runs(s, ls) && Told(s, ls) && from <= |s.log| && ToPublish(s) == Replay(base, s.log[from..])
    requires |s.log| <= i < |Run(s, ls).log|
    ensures var log := Run(s, ls).log; Fits(Replay(base, log[from..i]), log[i])
    decreases |ls|
  {
    if ls != [] {
      var s' := Apply(s, ls[0]);
      ToldFollows(base, from, s, [ls[0]]);
      assert Run(s, [ls[0]]) == s';
      ToldFollows(base, from, s', ls[1..]);
      if i < |s'.log| {
        OneEventFits(s, i);
        assert s'.log[i] == Run(s, ls).log[i] && Run(s, ls).log[from..i] == s.log[from..];
      } else {
        RunEventsFit(base, from, s', ls[1..], i);
      }
    }
  }

  lemma OneEventFits(s: State, i: nat)
    requires Enabled(s, Stat) && |s.log| <= i < |Apply(s, Stat).log|
    ensures i == |s.log| && Fits(s.batch.value.next, Apply(s, Stat).log[i])
  {
    var t, obs := s.batch.value.next, Seeing(s);
    if obs != [] {
      assert obs == [] + [obs[0]];
      AppliedConcat(t, [], obs[0]);
      StepAnnounced(t, obs[0]);
    }
  }

  /** Some batch is stored in the course of the run. */
  predicate Stores(ls: seq<Label>) {
    ls != [] && (ls[0].Store? || Stores(ls[1..]))
  }

  /** The snapshot stays as it is up to the first store; from then on it is a replay of a part
      of the events since the start. */
  lemma {:induction false} LoadedSnapshot(base: Tree, from: nat, s: State, ls: seq<Label>) returns (cut: nat)
    requires Runs(s, ls) && Told(s, ls) && from <= |s.log| && ToPublish(s) == Replay(base, s.log[from..])
    ensures var mid := Run(s, ls);
      if Stores(ls) then from <= cut <= |mid.log| && mid.snapshot == Replay(base, mid.log[from..cut])
      else mid.snapshot == s.snapshot
    decreases |ls|
  {
    cut := from;
    if ls != [] {
      var s' := Apply(s, ls[0]);
      ToldFollows(base, from, s, [ls[0]]);
      assert Run(s, [ls[0]]) == s';
      if ls[0].Store? {
        assert s.log[from..|s.log|] == s.log[from..];
        cut := RunMirrored(base, from, |s.log|, s', ls[1..]);
      } else {
        cut := LoadedSnapshot(base, from, s', ls[1..]);
      }
    }
  }

  /** Some event of these is about `k`. */
  predicate Touches(events: seq<Event>, k: string) { LastEffect(events, k).Some? }

  /** What `k` was in the tree being worked on when an event was last about it; `v0` if none was. */
  function LastTold(s: State, ls: seq<Label>, k: string, v0: Option<Entry>): Option<Entry>
    requires Runs(s, ls)
    decreases |ls|
  {
    if ls == [] then v0
    else
      var s' := Apply(s, ls[0]);
      var told := ls[0].Stat? && Touches(Emitted(s.batch.value.next, Seeing(s)), k);
      LastTold(s', ls[1..], k, if told then Get(ToPublish(s'), k) else v0)
  }

  /** What a stat says of a key is what the key then is. */
  lemma StatTells(t: Tree, obs: seq<Seen>, k: string)
    requires |obs| <= 1 && Touches(Emitted(t, obs), k)
    ensures LastEffect(Emitted(t, obs), k) == Some(Get(Applied(t, obs), k))
  {
    OneSeen(t, obs[0]);
    assert obs == [obs[0]];
    StepTells(t, obs[0], k);
  }

  lemma StepTells(t: Tree, o: Seen, k: string)
    requires Touches(StepEvents(t, o), k)
    ensures LastEffect(StepEvents(t, o), k) == Some(Get(StepTree(t, o), k))
  {
    var events := StepEvents(t, o);
    assert |events| == 1 && events[..0] == [];
  }

  /** Replaying the events of any run, key by key: a client ends with what it was last told. */
  lemma {:induction false} ReplayIsLastTold(t: Tree, from: nat, s: State, ls: seq<Label>, k: string)
    requires Runs(s, ls) && from <= |s.log|
    ensures s.log <= Run(s, ls).log
    ensures Get(Replay(t, Run(s, ls).log[from..]), k) == LastTold(s, ls, k, Get(Replay(t, s.log[from..]), k))
    decreases |ls|
  {
    if ls != [] {
      var s' := Apply(s, ls[0]);
      ReplayIsLastTold(t, from, s', ls[1..], k);
      if ls[0].Stat? {
        var next, obs := s.batch.value.next, Seeing(s);
        LogGrows(t, from, from, s.log, Emitted(next, obs));
        ReplayAt(Replay(t, s.log[from..]), Emitted(next, obs), k);
        if Touches(Emitted(next, obs), k) {
          StatTells(next, obs, k);
        }
      }
    }
  }

  /** For every run, silent stats, full walks, overlaps, dropped and unfinished batches included:
      a client that subscribes at any moment, loads the snapshot at any later one and replays
      every event since its subscription, ends with a given tree exactly when every key was last
      told, or loaded, as it is in that tree. */
  lemma MirrorEndsWith(s: State, before: seq<Label>, after: seq<Label>, truth: Tree)
    requires Runs(s, before + after)
    ensures Runs(s, before) && |s.log| <= |Run(s, before + after).log|
    ensures var loaded, end := Run(s, before).snapshot, Run(s, before + after);
      Replay(loaded, end.log[|s.log|..]) == truth <==>
        forall k :: LastTold(s, before + after, k, Get(loaded, k)) == Get(truth, k)
  {
    RunConcat(s, before, after);
    LogExtends(s, before + after);
    var loaded, end := Run(s, before).snapshot, Run(s, before + after);
    var mirror := Replay(loaded, end.log[|s.log|..]);
    assert s.log[|s.log|..] == [];
    forall k ensures Get(mirror, k) == LastTold(s, before + after, k, Get(loaded, k)) {
      ReplayIsLastTold(loaded, |s.log|, s, before + after, k);
    }
    if forall k :: LastTold(s, before + after, k, Get(loaded, k)) == Get(truth, k) {
      SameTree(mirror, truth);
    }
  }

  lemma LogExtends(s: State, ls: seq<Label>)
    requires Runs(s, ls)
    ensures s.log <= Run(s, ls).log
  {
    ReplayIsLastTold(map[], |s.log|, s, ls, "");
  }

  /** When no stat of the run is silent, this comes down to the moment of the load: a client
      ends with the server's tree exactly when a batch was stored before it loaded the snapshot,
      or the events it missed are about keys that a later event touches again. */
  lemma MirrorConvergesExactly(s: State, before: seq<Label>, after: seq<Label>)
    requires Runs(s, before + after) && Told(s, before + after) && Run(s, before + after).batch == None
    ensures Runs(s, before) && |s.log| <= |Run(s, before + after).log|
    ensures var loaded, end := Run(s, before).snapshot, Run(s, before + after);
      Replay(loaded, end.log[|s.log|..]) == end.snapshot <==>
        Stores(before) || Caught(s, end.log[|s.log|..])
  {
    RunConcat(s, before, after);
    ToldConcat(s, before, after);
    var base, from, mid := ToPublish(s), |s.log|, Run(s, before);
    var end := Run(mid, after);
    assert s.log[from..] == [];
    ToldFollows(base, from, s, before);
    ToldFollows(base, from, mid, after);
    var cut := LoadedSnapshot(base, from, s, before);
    if Stores(before) {
      LoadedReplay(base, from, cut, mid.log, end.log);
    } else {
      ReplayAgrees(s.snapshot, base, end.log[from..]);
    }
  }

  /** Where the snapshot lags behind the tree being worked on, a later event will say more. */
  ghost predicate Caught(s: State, events: seq<Event>) {
    forall k :: LastEffect(events, k) == None ==> Get(s.snapshot, k) == Get(ToPublish(s), k)
  }

  /** In particular a client that subscribes between two batches always ends with the server's
      tree, although the snapshot may already contain a part of its events. */
  lemma MirrorConverges(s: State, before: seq<Label>, after: seq<Label>)
    requires s.batch == None && Runs(s, before + after) && Told(s, before + after)
    requires Run(s, before + after).batch == None
    ensures Runs(s, before) && |s.log| <= |Run(s, before + after).log|
    ensures var loaded, end := Run(s, before).snapshot, Run(s, before + after);
      Replay(loaded, end.log[|s.log|..]) == end.snapshot
  {
    MirrorConvergesExactly(s, before, after);
  }

  /** Mirror and vault. On a live index whose first walk is done, after any run that ends with
      nothing left to look at, server and vault agree; a client agrees with both exactly when
      every key was last told, or loaded, as it is. Changes may fall anywhere, silent ones too. */
  lemma MirrorIsTheVault(s: State, before: seq<Label>, after: seq<Label>)
    requires NoLoss(s) && Runs(s, before + after) && Diligent(s, before + after)
    requires var end := Run(s, before + after); end.batch == None && end.walk == None && Queued(end) == {}
    ensures Runs(s, before) && |s.log| <= |Run(s, before + after).log|
    ensures var loaded, end := Run(s, before).snapshot, Run(s, before + after);
      && end.snapshot == TreeOf(end.disk)
      && (Replay(loaded, end.log[|s.log|..]) == TreeOf(end.disk) <==>
            forall k :: LastTold(s, before + after, k, Get(loaded, k)) == Get(TreeOf(end.disk), k))
  {
    var end := Run(s, before + after);
    RunNoLoss(s, before + after);
    SameTree(end.snapshot, TreeOf(end.disk));
    MirrorEndsWith(s, before, after, TreeOf(end.disk));
  }

  /** When no stat is silent, the condition is again that of the load. */
  lemma ToldMirrorIsTheVault(s: State, before: seq<Label>, after: seq<Label>)
    requires NoLoss(s) && s.walk == None
    requires Runs(s, before + after) && Diligent(s, before + after) && Told(s, before + after)
    requires var end := Run(s, before + after); end.batch == None && Queued(end) == {}
    ensures Runs(s, before) && |s.log| <= |Run(s, before + after).log|
    ensures var loaded, end := Run(s, before).snapshot, Run(s, before + after);
      Replay(loaded, end.log[|s.log|..]) == TreeOf(end.disk) <==>
        Stores(before) || Caught(s, end.log[|s.log|..])
  {
    MirrorConvergesExactly(s, before, after);
    ToldEndsRight(s, before + after);
  }

  lemma ToldEndsRight(s: State, ls: seq<Label>)
    requires NoLoss(s) && s.walk == None && Runs(s, ls) && Diligent(s, ls) && Told(s, ls)
    requires Run(s, ls).batch == None && Queued(Run(s, ls)) == {}
    ensures Run(s, ls).snapshot == TreeOf(Run(s, ls).disk)
  {
    RunNoLoss(s, ls);
    assert s.log[|s.log|..] == [];
    ToldFollows(ToPublish(s), |s.log|, s, ls);
    SameTree(Run(s, ls).snapshot, TreeOf(Run(s, ls).disk));
  }

  /** A live index is in the state those results start from as soon as its first walk is done. */
  lemma LiveIndexNoLoss(root: Path, d: Disk, ls: seq<Label>)
    requires Runs(Started(root, d), ls) && Diligent(Started(root, d), ls)
    ensures NoLoss(Run(Started(root, d), ls))
  {
    StartCovers(d, {});
    RunNoLoss(Started(root, d), ls);
  }

  lemma LoadedReplay(base: Tree, from: nat, cut: nat, log: seq<Event>, log': seq<Event>)
    requires from <= cut <= |log| && log <= log'
    ensures Replay(Replay(base, log[from..cut]), log'[from..]) == Replay(base, log'[from..])
  {
    var events := log'[from..];
    assert log[from..cut] == events[..cut - from];
    ReplayOverlap(base, events, cut - from);
  }

  lemma {:induction false} ToldConcat(s: State, a: seq<Label>, b: seq<Label>)
    requires Runs(s, a + b) && Told(s, a + b)
    ensures Runs(s, a) && Runs(Run(s, a), b) && Told(s, a) && Told(Run(s, a), b)
    decreases |a|
  {
    if a == [] {
      assert a + b == b;
    } else {
      assert (a + b)[1..] == a[1..] + b;
      ToldConcat(Apply(s, a[0]), a[1..], b);
    }
  }

  // ---- when are events complete? ----

  /** Changes fall between batches, a batch takes the whole queue, and no full walk runs. */
  predicate Calm(s: State, l: Label) {
    && WalkFree(l)
    && (l.Mutate? ==> s.batch == None)
    && (l.Load? ==> l.n == |s.queue|)
  }

  predicate CalmRun(s: State, ls: seq<Label>)
    requires Runs(s, ls)
    decreases |ls|
  {
    ls == [] || (Calm(s, ls[0]) && CalmRun(Apply(s, ls[0]), ls[1..]))
  }

  /** Somewhere along the run a stat finds a known file to be a directory. */
  predicate MeetsFlip(s: State, ls: seq<Label>)
    requires Runs(s, ls)
    decreases |ls|
  {
    ls != [] &&
      (|| (ls[0].Stat? && exists o :: o in Seeing(s) && Flips(s.batch.value.next, o))
       || MeetsFlip(Apply(s, ls[0]), ls[1..]))
  }

  ghost predicate Settled(s: State) {
    && NoLoss(s) && s.walk == None
    && if s.batch == None then Closed(s.snapshot)
       else Queued(s) == {} && Anchored(s.batch.value.next, TreeOf(s.disk))
  }

  lemma CalmStep(s: State, l: Label)
    requires Settled(s) && Enabled(s, l) && FullyReported(s, l) && Separate(s, l) && Calm(s, l)
    ensures Settled(Apply(s, l))
  {
    StepNoLoss(s, l);
    TreeOfClosed(s.disk);
    match l
    case Mutate(_, _) =>
    case Load(n) => assert s.queue[n..] == [];
    case Stat =>
      ObservedAt(s);
      if Seeing(s) != [] {
        AppliedConcat(s.batch.value.next, [], Seeing(s)[0]);
        assert Seeing(s) == [] + [Seeing(s)[0]];
        StepAnchored(s.batch.value.next, TreeOf(s.disk), Seeing(s)[0]);
      }
    case Store =>
      SameTree(s.batch.value.next, TreeOf(s.disk));
  }

  /** In a calm run every change is told, exactly when no stat meets a file that has become a
      directory. */
  lemma {:induction false} CalmRunTold(s: State, ls: seq<Label>)
    requires Settled(s) && Runs(s, ls) && Diligent(s, ls) && CalmRun(s, ls)
    ensures Told(s, ls) <==> !MeetsFlip(s, ls)
    decreases |ls|
  {
    if ls != [] {
      CalmStep(s, ls[0]);
      CalmRunTold(Apply(s, ls[0]), ls[1..]);
      if ls[0].Stat? {
        ObservedAt(s);
        forall o | o in Seeing(s) ensures !DropsOrphans(s.batch.value.next, o) {
          assert o.entry == Get(TreeOf(s.disk), o.rel);
        }
      }
    }
  }

  /** In a calm run without such a flip, a client that subscribes between two batches ends with
      the tree of the vault. */
  lemma CalmMirrorIsTheVault(s: State, before: seq<Label>, after: seq<Label>)
    requires Settled(s) && s.batch == None
    requires Runs(s, before + after) && Diligent(s, before + after)
    requires CalmRun(s, before + after) && !MeetsFlip(s, before + after)
    requires var end := Run(s, before + after); end.batch == None && Queued(end) == {}
    ensures Runs(s, before) && |s.log| <= |Run(s, before + after).log|
    ensures var loaded, end := Run(s, before).snapshot, Run(s, before + after);
      Replay(loaded, end.log[|s.log|..]) == TreeOf(end.disk)
  {
    CalmRunTold(s, before + after);
    ToldMirrorIsTheVault(s, before, after);
  }
}
