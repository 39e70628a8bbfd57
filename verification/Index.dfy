/** The warm index of one vault: incremental update, change events, and their replay. */
module Index {
  import opened Wrappers
  import opened Sequences
  import opened Keys
  import opened Vault
  import opened TreeWalk

  /** The change events a subscriber receives, in the order they were published. */
  datatype Event =
    | FolderCreated(path: string)
    | Created(path: string, stat: Entry)
    | Modified(path: string, stat: Entry)
    | Deleted(path: string)

  /** What one changed path turned out to be when it was stat'ed. */
  datatype Seen = Seen(rel: string, entry: Option<Entry>)

  /** Without `rel` and everything below it. */
  function Prune(t: Tree, rel: string): Tree {
    map k | k in t && k != rel && !Under(rel, k) :: t[k]
  }

  function StepTree(t: Tree, o: Seen): Tree {
    match o.entry
    case Some(e) => t[o.rel := e]
    case None => Prune(t, o.rel)
  }

  function StepEvents(t: Tree, o: Seen): seq<Event> {
    match o.entry
    case Some(DirEntry) => if o.rel in t then [] else [FolderCreated(o.rel)]
    case Some(e) => if o.rel in t then [Modified(o.rel, e)] else [Created(o.rel, e)]
    case None => if o.rel in t then [Deleted(o.rel)] else []
  }

  function Applied(t: Tree, obs: seq<Seen>): Tree {
    if obs == [] then t else StepTree(Applied(t, obs[..|obs| - 1]), obs[|obs| - 1])
  }

  function Emitted(t: Tree, obs: seq<Seen>): seq<Event> {
    if obs == [] then []
    else Emitted(t, obs[..|obs| - 1]) + StepEvents(Applied(t, obs[..|obs| - 1]), obs[|obs| - 1])
  }

  /** `strip_prefix(root)`; the root itself and paths outside it are of no interest. */
  function RelOf(root: Path, p: Path): Option<Path> {
    if root < p then Some(p[|root|..]) else None
  }

  function ObserveOne(root: Path, p: Path, d: Disk): seq<Seen> {
    match RelOf(root, p)
    case Some(rel) => [Seen(Join(rel), StatOf(d, rel))]
    case None => []
  }

  /** The observations of a batch, the i-th path being stat'ed on the i-th disk: the vault may
      change while the batch is processed. */
  function Observe(root: Path, paths: seq<Path>, disks: seq<Disk>): (obs: seq<Seen>)
    requires |disks| == |paths|
  {
    if paths == [] then []
    else
      var n := |paths| - 1;
      Observe(root, paths[..n], disks[..n]) + ObserveOne(root, paths[n], disks[n])
  }

  lemma AppliedConcat(t: Tree, obs: seq<Seen>, o: Seen)
    ensures Applied(t, obs + [o]) == StepTree(Applied(t, obs), o)
    ensures Emitted(t, obs + [o]) == Emitted(t, obs) + StepEvents(Applied(t, obs), o)
  {
  }

  /** What one more path adds to a batch. */
  lemma ObserveStep(t: Tree, root: Path, paths: seq<Path>, disks: seq<Disk>, i: nat)
    requires |disks| == |paths| && i < |paths|
    ensures
      var obs, obs' := Observe(root, paths[..i], disks[..i]), Observe(root, paths[..i + 1], disks[..i + 1]);
      match RelOf(root, paths[i])
      case None => obs' == obs
      case Some(rel) =>
        var o := Seen(Join(rel), StatOf(disks[i], rel));
        && Applied(t, obs') == StepTree(Applied(t, obs), o)
        && Emitted(t, obs') == Emitted(t, obs) + StepEvents(Applied(t, obs), o)
  {
    var obs := Observe(root, paths[..i], disks[..i]);
    assert paths[..i + 1][..i] == paths[..i] && disks[..i + 1][..i] == disks[..i];
    match RelOf(root, paths[i])
    case None => assert obs + [] == obs;
    case Some(rel) => AppliedConcat(t, obs, Seen(Join(rel), StatOf(disks[i], rel)));
  }

  /** `retain(|k| !k.starts_with(prefix))` */
  function Retain(t: Tree, rel: string): Tree {
    map k | k in t && !Under(rel, k) :: t[k]
  }

  lemma RemoveThenRetain(t: Tree, rel: string)
    ensures Retain(t - {rel}, rel) == Prune(t, rel)
  {
  }

  /** The published snapshot, and the log of events behind the broadcast channel. */
  class VaultIndex {
    const root: Path
    var tree: Tree
    var log: seq<Event>

    /** `build_live` with no change during construction: empty tree, watcher, full walk. */
    constructor BuildLive(root: Path, d: Disk)
      ensures this.root == root && tree == TreeOf(d) && log == []
    {
      this.root := root;
      tree := map[];
      log := [];
      new;
      Reconcile(d);
    }

    method Reconcile(d: Disk)
      modifies this
      ensures tree == TreeOf(d) && log == old(log)
    {
      var built := BuildTree(d);
      tree := built;
    }

    /** Apply one debounced batch of changed paths, stat'ing each as the disk then is. The
        events go out while the batch runs; the snapshot is replaced once, at the end. */
    method ApplyPaths(paths: seq<Path>, disks: seq<Disk>)
      requires |disks| == |paths|
      modifies this
      ensures tree == Applied(old(tree), Observe(root, paths, disks))
      ensures log == old(log) + Emitted(old(tree), Observe(root, paths, disks))
      ensures AllAnnounced(old(tree), Observe(root, paths, disks), log[|old(log)|..])
    {
      var next := tree;
      ghost var t := tree;
      for i := 0 to |paths|
        invariant tree == t
        invariant next == Applied(t, Observe(root, paths[..i], disks[..i]))
        invariant log == old(log) + Emitted(t, Observe(root, paths[..i], disks[..i]))
      {
        ObserveStep(t, root, paths, disks, i);
        ghost var before, said, sent := next, log, Emitted(t, Observe(root, paths[..i], disks[..i]));
        var stripped := RelOf(root, paths[i]);
        if stripped.Some? {
          var rel := KeyOf(stripped.value);
          KeyIsJoin(stripped.value);
          var existed := rel in next;
          match StatOf(disks[i], stripped.value) {
            case Some(node) =>
              if node == DirEntry {
                if !existed {
                  log := log + [FolderCreated(rel)];
                }
              } else if !existed {
                log := log + [Created(rel, node)];
              } else {
                log := log + [Modified(rel, node)];
              }
              next := next[rel := node];
            case None =>
              RemoveThenRetain(next, rel);
              next := Retain(next - {rel}, rel);
              if existed {
                log := log + [Deleted(rel)];
              }
          }
          ghost var o := Seen(rel, StatOf(disks[i], stripped.value));
          assert log == said + StepEvents(before, o);
          ConcatAssociates(old(log), sent, StepEvents(before, o));
        }
      }
      assert paths[..|paths|] == paths && disks[..|paths|] == disks;
      LogAnnounced(old(log), t, Observe(root, paths, disks));
      tree := next;
    }
  }

  // ---- the meaning of a batch against one disk ----

  ghost predicate Truthful(obs: seq<Seen>, t: Tree) {
    forall o :: o in obs ==> o.entry == Get(t, o.rel)
  }

  predicate Mentions(obs: seq<Seen>, k: string) {
    exists o :: o in obs && o.rel == k
  }

  /** Some path of the batch was found missing and `k` lies below it. */
  predicate Swept(obs: seq<Seen>, k: string) {
    exists o :: o in obs && o.entry == None && Under(o.rel, k)
  }

  /** A key of the batch takes its value on disk, a key below a missing path is gone, and
      every other key is untouched, whatever the order and the duplicates. */
  lemma {:induction false} AppliedAt(t: Tree, obs: seq<Seen>, truth: Tree, k: string)
    requires Truthful(obs, truth) && Closed(truth)
    ensures Get(Applied(t, obs), k) ==
            if Mentions(obs, k) then Get(truth, k) else if Swept(obs, k) then None else Get(t, k)
  {
    if obs != [] {
      var init, o := obs[..|obs| - 1], obs[|obs| - 1];
      AppliedAt(t, init, truth, k);
      assert obs == init + [o];
      assert Mentions(obs, k) <==> Mentions(init, k) || o.rel == k;
      assert Swept(obs, k) <==> Swept(init, k) || (o.entry == None && Under(o.rel, k));
      assert o.entry == None && Under(o.rel, k) ==> k !in truth;
    }
  }

  ghost predicate SameSeen(obs: seq<Seen>, obs': seq<Seen>) {
    forall o :: o in obs <==> o in obs'
  }

  /** Only the set of observations matters: not their order, and not how often. */
  lemma OrderIndependent(t: Tree, obs: seq<Seen>, obs': seq<Seen>, truth: Tree)
    requires Truthful(obs, truth) && Closed(truth) && SameSeen(obs, obs')
    ensures Applied(t, obs) == Applied(t, obs')
  {
    forall k ensures Get(Applied(t, obs), k) == Get(Applied(t, obs'), k) {
      AppliedAt(t, obs, truth, k);
      AppliedAt(t, obs', truth, k);
    }
    SameTree(Applied(t, obs), Applied(t, obs'));
  }

  /** Applying a batch a second time changes nothing. */
  lemma Idempotent(t: Tree, obs: seq<Seen>, truth: Tree)
    requires Truthful(obs, truth) && Closed(truth)
    ensures Applied(Applied(t, obs), obs) == Applied(t, obs)
  {
    var once := Applied(t, obs);
    forall k ensures Get(Applied(once, obs), k) == Get(once, k) {
      AppliedAt(t, obs, truth, k);
      AppliedAt(once, obs, truth, k);
    }
    SameTree(Applied(once, obs), once);
  }

  // ---- replaying events ----

  /** What a subscriber does with an event; a deletion takes the whole subtree. */
  function ApplyEvent(t: Tree, e: Event): Tree {
    match e
    case FolderCreated(p) => t[p := DirEntry]
    case Created(p, s) => t[p := s]
    case Modified(p, s) => t[p := s]
    case Deleted(p) => Prune(t, p)
  }

  function Replay(t: Tree, events: seq<Event>): Tree {
    if events == [] then t
    else ApplyEvent(Replay(t, events[..|events| - 1]), events[|events| - 1])
  }

  lemma {:induction false} ReplayConcat(t: Tree, a: seq<Event>, b: seq<Event>)
    ensures Replay(t, a + b) == Replay(Replay(t, a), b)
  {
    if b == [] {
      assert a + b == a;
    } else {
      ReplayConcat(t, a, b[..|b| - 1]);
      assert (a + b)[..|a + b| - 1] == a + b[..|b| - 1];
    }
  }

  /** What an event does to one key: nothing, or a value that depends on no base tree. */
  function Effect(e: Event, k: string): Option<Option<Entry>> {
    match e
    case FolderCreated(p) => if p == k then Some(Some(DirEntry)) else None
    case Created(p, s) => if p == k then Some(Some(s)) else None
    case Modified(p, s) => if p == k then Some(Some(s)) else None
    case Deleted(p) => if p == k || Under(p, k) then Some(None) else None
  }

  function LastEffect(events: seq<Event>, k: string): Option<Option<Entry>> {
    if events == [] then None
    else
      var last := Effect(events[|events| - 1], k);
      if last.Some? then last else LastEffect(events[..|events| - 1], k)
  }

  lemma {:induction false} ReplayAt(t: Tree, events: seq<Event>, k: string)
    ensures Get(Replay(t, events), k) ==
            match LastEffect(events, k) case Some(v) => v case None => Get(t, k)
  {
    if events != [] {
      ReplayAt(t, events[..|events| - 1], k);
    }
  }

  lemma {:induction false} NoEffectInPrefix(events: seq<Event>, i: nat, k: string)
    requires i <= |events| && LastEffect(events, k) == None
    ensures LastEffect(events[..i], k) == None
  {
    if i == |events| {
      assert events[..i] == events;
    } else {
      var init := events[..|events| - 1];
      NoEffectInPrefix(init, i, k);
      assert init[..i] == events[..i];
    }
  }

  /** Events that a snapshot already contains do no harm when they are replayed on it again. */
  lemma ReplayOverlap(t: Tree, events: seq<Event>, i: nat)
    requires i <= |events|
    ensures Replay(Replay(t, events[..i]), events) == Replay(t, events)
  {
    forall k ensures Get(Replay(Replay(t, events[..i]), events), k) == Get(Replay(t, events), k) {
      ReplayAt(Replay(t, events[..i]), events, k);
      ReplayAt(t, events, k);
      if LastEffect(events, k) == None {
        NoEffectInPrefix(events, i, k);
        ReplayAt(t, events[..i], k);
      }
    }
    SameTree(Replay(Replay(t, events[..i]), events), Replay(t, events));
  }

  /** Two trees agree after the same events exactly when they agreed on every key that none of
      the events touches. */
  lemma ReplayAgrees(t: Tree, u: Tree, events: seq<Event>)
    ensures Replay(t, events) == Replay(u, events) <==>
            forall k :: LastEffect(events, k) == None ==> Get(t, k) == Get(u, k)
  {
    forall k ensures Get(Replay(t, events), k) == Get(Replay(u, events), k) <==>
                     (LastEffect(events, k) == None ==> Get(t, k) == Get(u, k))
    {
      ReplayAt(t, events, k);
      ReplayAt(u, events, k);
    }
    if forall k :: LastEffect(events, k) == None ==> Get(t, k) == Get(u, k) {
      SameTree(Replay(t, events), Replay(u, events));
    }
  }

  // ---- which events are sent ----

  /** An event fits the tree it falls on: what is created was not there, what is modified or
      deleted was. */
  predicate Fits(t: Tree, e: Event) {
    match e
    case FolderCreated(p) => p !in t
    case Created(p, s) => p !in t && s.FileEntry?
    case Modified(p, s) => p in t && s.FileEntry?
    case Deleted(p) => p in t
  }

  /** The event is about the path that was stat'ed, says what was found, and fits. */
  predicate Announces(t: Tree, o: Seen, e: Event) {
    Fits(t, e) && e.path == o.rel && Effect(e, o.rel) == Some(o.entry)
  }

  /** A stat sends the one event that announces it, if there is one. */
  lemma StepAnnounced(t: Tree, o: Seen)
    ensures |StepEvents(t, o)| <= 1
    ensures forall e :: StepEvents(t, o) == [e] <==> Announces(t, o, e)
  {
  }

  /** The i-th event of a batch announces its j-th stat, on the tree as it then is. */
  predicate AnnouncedBy(t: Tree, obs: seq<Seen>, events: seq<Event>, i: nat, j: nat) {
    && i < |events| && j < |obs| && i == |Emitted(t, obs[..j])|
    && Announces(Applied(t, obs[..j]), obs[j], events[i])
  }

  predicate AnnouncesSome(t: Tree, obs: seq<Seen>, events: seq<Event>, i: nat) {
    exists j :: 0 <= j < |obs| && AnnouncedBy(t, obs, events, i, j)
  }

  ghost predicate CanBeAnnounced(t: Tree, obs: seq<Seen>, j: nat) {
    j < |obs| && exists e :: Announces(Applied(t, obs[..j]), obs[j], e)
  }

  /** Every event announces a stat, and every stat that can be announced is, in order. */
  ghost predicate AllAnnounced(t: Tree, obs: seq<Seen>, events: seq<Event>) {
    && (forall i :: 0 <= i < |events| ==> AnnouncesSome(t, obs, events, i))
    && (forall j :: 0 <= j < |obs| && CanBeAnnounced(t, obs, j) ==>
          AnnouncedBy(t, obs, events, |Emitted(t, obs[..j])|, j))
  }

  /** What holds of the first stats of a batch holds whatever follows. */
  lemma AnnouncedEarlier(t: Tree, init: seq<Seen>, o: Seen, events: seq<Event>, more: seq<Event>, i: nat, j: nat)
    requires j < |init| && i < |events|
    ensures AnnouncedBy(t, init + [o], events + more, i, j) <==> AnnouncedBy(t, init, events, i, j)
    ensures CanBeAnnounced(t, init + [o], j) <==> CanBeAnnounced(t, init, j)
    ensures (init + [o])[..j] == init[..j]
  {
    assert (init + [o])[..j] == init[..j] && (init + [o])[j] == init[j] && (events + more)[i] == events[i];
  }

  lemma AnnouncedLast(t: Tree, init: seq<Seen>, o: Seen)
    ensures var obs, sent, more := init + [o], Emitted(t, init), StepEvents(Applied(t, init), o);
      && |more| <= 1 && obs[..|init|] == init
      && (more == [] <==> !CanBeAnnounced(t, obs, |init|))
      && (more != [] ==> AnnouncedBy(t, obs, sent + more, |sent|, |init|))
  {
    var mid := Applied(t, init);
    StepAnnounced(mid, o);
    assert (init + [o])[..|init|] == init && (init + [o])[|init|] == o;
    if CanBeAnnounced(t, init + [o], |init|) {
      var e :| Announces(mid, o, e);
    }
    if StepEvents(mid, o) != [] {
      var e := StepEvents(mid, o)[0];
      assert StepEvents(mid, o) == [e] && Announces(mid, o, e);
    }
  }

  lemma {:induction false} BatchAnnounced(t: Tree, obs: seq<Seen>)
    ensures AllAnnounced(t, obs, Emitted(t, obs))
  {
    if obs != [] {
      var init, o := obs[..|obs| - 1], obs[|obs| - 1];
      SplitLast(obs);
      BatchAnnounced(t, init);
      AnnouncedLast(t, init, o);
      OneMoreAnnounced(t, init, o, Emitted(t, init), StepEvents(Applied(t, init), o));
    }
  }

  lemma OneMoreAnnounced(t: Tree, init: seq<Seen>, o: Seen, events: seq<Event>, more: seq<Event>)
    requires AllAnnounced(t, init, events) && |more| <= 1 && |events| == |Emitted(t, init)|
    requires (init + [o])[..|init|] == init && (more == [] ==> !CanBeAnnounced(t, init + [o], |init|))
    requires more != [] ==> AnnouncedBy(t, init + [o], events + more, |events|, |init|)
    ensures AllAnnounced(t, init + [o], events + more)
  {
    var obs, sent := init + [o], events + more;
    forall i | 0 <= i < |sent| ensures AnnouncesSome(t, obs, sent, i) {
      if i < |events| {
        assert AnnouncesSome(t, init, events, i);
        var j :| 0 <= j < |init| && AnnouncedBy(t, init, events, i, j);
        AnnouncedEarlier(t, init, o, events, more, i, j);
      }
    }
    forall j | 0 <= j < |obs| && CanBeAnnounced(t, obs, j)
      ensures AnnouncedBy(t, obs, sent, |Emitted(t, obs[..j])|, j)
    {
      if j < |init| {
        assert obs[..j] == init[..j] && obs[j] == init[j];
        assert CanBeAnnounced(t, init, j);
        AnnouncedEarlier(t, init, o, events, more, |Emitted(t, init[..j])|, j);
      }
    }
  }

  lemma LogAnnounced(before: seq<Event>, t: Tree, obs: seq<Seen>)
    ensures AllAnnounced(t, obs, (before + Emitted(t, obs))[|before|..])
  {
    BatchAnnounced(t, obs);
    assert (before + Emitted(t, obs))[|before|..] == Emitted(t, obs);
  }

  /** A known file that turned into a directory between two stats. */
  predicate Flips(t: Tree, o: Seen) {
    o.entry == Some(DirEntry) && o.rel in t && t[o.rel] != DirEntry
  }

  /** A missing path that is not a key itself although keys below it are. */
  predicate DropsOrphans(t: Tree, o: Seen) {
    o.entry == None && o.rel !in t && exists k :: k in t && Under(o.rel, k)
  }

  /** The tree changes and no event says so. */
  predicate Silent(t: Tree, o: Seen) {
    Flips(t, o) || DropsOrphans(t, o)
  }

  /** One step is reproduced by its own events exactly when it is not silent. */
  lemma StepReplay(t: Tree, o: Seen)
    ensures Replay(t, StepEvents(t, o)) == StepTree(t, o) <==> !Silent(t, o)
  {
  }

  /** Every ancestor of a key is a key or on disk. */
  ghost predicate Anchored(t: Tree, truth: Tree) {
    forall rel, k :: k in t && Under(rel, k) ==> rel in t || rel in truth
  }

  lemma StepAnchored(t: Tree, truth: Tree, o: Seen)
    requires Anchored(t, truth) && Closed(truth) && o.entry == Get(truth, o.rel)
    ensures Anchored(StepTree(t, o), truth)
  {
  }

  ghost predicate NoFlips(t: Tree, obs: seq<Seen>) {
    forall o :: o in obs ==> !Flips(t, o)
  }

  /** Against one disk, a batch that meets no file-turned-directory is never silent. */
  lemma {:induction false} BatchNotSilent(t: Tree, obs: seq<Seen>, truth: Tree)
    requires Truthful(obs, truth) && Closed(truth) && Anchored(t, truth) && NoFlips(t, obs)
    ensures Anchored(Applied(t, obs), truth)
    ensures Replay(t, Emitted(t, obs)) == Applied(t, obs)
  {
    if obs != [] {
      var init, o := obs[..|obs| - 1], obs[|obs| - 1];
      assert obs == init + [o];
      BatchNotSilent(t, init, truth);
      var mid := Applied(t, init);
      AppliedAt(t, init, truth, o.rel);
      assert !Flips(t, o);
      assert !Silent(mid, o);
      StepReplay(mid, o);
      StepAnchored(mid, truth, o);
      ReplayConcat(t, Emitted(t, init), StepEvents(mid, o));
    }
  }

  lemma StepSaysNothing(t: Tree, truth: Tree, o: Seen, k: string)
    requires Closed(truth) && o.entry == Get(truth, o.rel)
    requires Get(truth, k) == Some(DirEntry) && k in t
    ensures k in StepTree(t, o)
    ensures StepEvents(t, o) == [] || Effect(StepEvents(t, o)[0], k) == None
  {
  }

  lemma LastEffectStep(events: seq<Event>, more: seq<Event>, k: string)
    requires |more| <= 1 && (more == [] || Effect(more[0], k) == None)
    ensures LastEffect(events + more, k) == LastEffect(events, k)
  {
    if more == [] {
      assert events + more == events;
    } else {
      assert (events + more)[..|events|] == events;
    }
  }

  /** No event of a batch says anything of a key that was known and is now a directory. */
  lemma {:induction false} DirectoryUntold(t: Tree, obs: seq<Seen>, truth: Tree, k: string)
    requires Truthful(obs, truth) && Closed(truth)
    requires Get(truth, k) == Some(DirEntry) && k in t
    ensures LastEffect(Emitted(t, obs), k) == None && k in Applied(t, obs)
  {
    if obs != [] {
      var init, last := obs[..|obs| - 1], obs[|obs| - 1];
      DirectoryUntold(t, init, truth, k);
      StepSaysNothing(Applied(t, init), truth, last, k);
      LastEffectStep(Emitted(t, init), StepEvents(Applied(t, init), last), k);
    }
  }

  /** Replaying the events of a batch over the old tree gives the new tree exactly when no
      path of the batch is a file in the tree and a directory on disk. */
  lemma BatchReplayExact(t: Tree, obs: seq<Seen>, truth: Tree)
    requires Truthful(obs, truth) && Closed(truth) && Closed(t)
    ensures Replay(t, Emitted(t, obs)) == Applied(t, obs) <==> NoFlips(t, obs)
  {
    if NoFlips(t, obs) {
      BatchNotSilent(t, obs, truth);
    } else {
      var o :| o in obs && Flips(t, o);
      DirectoryUntold(t, obs, truth, o.rel);
      ReplayAt(t, Emitted(t, obs), o.rel);
      AppliedAt(t, obs, truth, o.rel);
    }
  }

  // ---- the same, for a list of changed paths ----

  /** The keys a list of changed paths is about. */
  ghost function KeysOf(root: Path, paths: seq<Path>): set<string> {
    set p | p in paths && RelOf(root, p).Some? :: Join(RelOf(root, p).value)
  }

  /** These are the keys of the paths that lie strictly below the root. */
  lemma KeysBelowRoot(root: Path, paths: seq<Path>, k: string)
    ensures k in KeysOf(root, paths) <==> exists rel: Path :: rel != [] && root + rel in paths && Join(rel) == k
  {
    if k in KeysOf(root, paths) {
      var p :| p in paths && RelOf(root, p).Some? && Join(RelOf(root, p).value) == k;
      assert root + p[|root|..] == p;
    }
    if rel: Path :| rel != [] && root + rel in paths && Join(rel) == k {
      assert RelOf(root, root + rel) == Some(rel);
    }
  }

  /** The observations of a batch during which the disk stands still. */
  function BatchOn(root: Path, paths: seq<Path>, d: Disk): seq<Seen> {
    Observe(root, paths, seq(|paths|, _ => d))
  }

  lemma {:induction false} BatchMembers(root: Path, paths: seq<Path>, d: Disk, o: Seen)
    ensures o in BatchOn(root, paths, d) <==>
            o.rel in KeysOf(root, paths) && o.entry == Get(TreeOf(d), o.rel)
  {
    if paths != [] {
      var n := |paths| - 1;
      BatchMembers(root, paths[..n], d, o);
      assert seq(|paths|, _ => d)[..n] == seq(n, _ => d);
      assert paths == paths[..n] + [paths[n]];
      var rel := RelOf(root, paths[n]);
      if rel.Some? {
        TreeAt(d, rel.value);
        assert KeysOf(root, paths) == KeysOf(root, paths[..n]) + {Join(rel.value)};
      } else {
        assert KeysOf(root, paths) == KeysOf(root, paths[..n]);
      }
    }
  }

  lemma BatchTruthful(root: Path, paths: seq<Path>, d: Disk)
    ensures Truthful(BatchOn(root, paths, d), TreeOf(d)) && Closed(TreeOf(d))
  {
    TreeOfClosed(d);
    forall o | o in BatchOn(root, paths, d) ensures o.entry == Get(TreeOf(d), o.rel) {
      BatchMembers(root, paths, d, o);
    }
  }

  ghost predicate BelowMissing(root: Path, paths: seq<Path>, d: Disk, k: string) {
    exists rel :: rel in KeysOf(root, paths) && rel !in TreeOf(d) && Under(rel, k)
  }

  /** The pointwise meaning of `apply_paths` on a vault that stands still. */
  lemma BatchMeaning(root: Path, t: Tree, paths: seq<Path>, d: Disk, k: string)
    ensures Get(Applied(t, BatchOn(root, paths, d)), k) ==
            if k in KeysOf(root, paths) then Get(TreeOf(d), k)
            else if BelowMissing(root, paths, d, k) then None
            else Get(t, k)
  {
    var obs := BatchOn(root, paths, d);
    BatchTruthful(root, paths, d);
    AppliedAt(t, obs, TreeOf(d), k);
    forall o ensures o in obs <==> o.rel in KeysOf(root, paths) && o.entry == Get(TreeOf(d), o.rel) {
      BatchMembers(root, paths, d, o);
    }
    var o := Seen(k, Get(TreeOf(d), k));
    assert k in KeysOf(root, paths) ==> o in obs;
    if BelowMissing(root, paths, d, k) {
      var rel :| rel in KeysOf(root, paths) && rel !in TreeOf(d) && Under(rel, k);
      assert Seen(rel, None) in obs;
    }
  }

  /** Any reordering or repetition of the changed paths gives the same tree. */
  lemma BatchOrderIndependent(root: Path, t: Tree, paths: seq<Path>, paths': seq<Path>, d: Disk)
    requires forall p :: p in paths <==> p in paths'
    ensures Applied(t, BatchOn(root, paths, d)) == Applied(t, BatchOn(root, paths', d))
  {
    BatchTruthful(root, paths, d);
    assert KeysOf(root, paths) == KeysOf(root, paths');
    forall o ensures o in BatchOn(root, paths, d) <==> o in BatchOn(root, paths', d) {
      BatchMembers(root, paths, d, o);
      BatchMembers(root, paths', d, o);
    }
    OrderIndependent(t, BatchOn(root, paths, d), BatchOn(root, paths', d), TreeOf(d));
  }

  /** Incremental update and full walk agree exactly when the batch covers every stale key. */
  lemma BatchAgreesWithReconcile(root: Path, t: Tree, paths: seq<Path>, d: Disk)
    ensures Applied(t, BatchOn(root, paths, d)) == TreeOf(d) <==>
            forall k :: Get(t, k) != Get(TreeOf(d), k) ==> k in KeysOf(root, paths) || BelowMissing(root, paths, d, k)
  {
    var obs := BatchOn(root, paths, d);
    forall k ensures Get(Applied(t, obs), k) == Get(TreeOf(d), k) <==>
      (Get(t, k) != Get(TreeOf(d), k) ==> k in KeysOf(root, paths) || BelowMissing(root, paths, d, k))
    {
      BatchMeaning(root, t, paths, d, k);
      TreeOfClosed(d);
    }
    if forall k :: Get(Applied(t, obs), k) == Get(TreeOf(d), k) {
      SameTree(Applied(t, obs), TreeOf(d));
    }
  }

  /** The events of a batch tell the whole change exactly when no path of the batch is a file
      in the tree and a directory on disk. */
  lemma BatchEventsExact(root: Path, t: Tree, paths: seq<Path>, d: Disk)
    requires Closed(t)
    ensures Replay(t, Emitted(t, BatchOn(root, paths, d))) == Applied(t, BatchOn(root, paths, d)) <==>
            !exists k :: k in KeysOf(root, paths) && k in t && t[k] != DirEntry && Get(TreeOf(d), k) == Some(DirEntry)
  {
    var obs := BatchOn(root, paths, d);
    BatchTruthful(root, paths, d);
    BatchReplayExact(t, obs, TreeOf(d));
    forall o ensures o in obs <==> o.rel in KeysOf(root, paths) && o.entry == Get(TreeOf(d), o.rel) {
      BatchMembers(root, paths, d, o);
    }
    if k :| k in KeysOf(root, paths) && k in t && t[k] != DirEntry && Get(TreeOf(d), k) == Some(DirEntry) {
      assert Seen(k, Some(DirEntry)) in obs && Flips(t, Seen(k, Some(DirEntry)));
    }
  }
}
