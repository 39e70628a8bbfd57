/** Full walks that overlap batches: when the index still ends up right, and what it can lose. */
module IndexOverlap {
  import opened Wrappers
  import opened Keys
  import opened Vault
  import opened TreeWalk
  import opened Index
  import opened IndexSystem

  // ---- the last store decides ----

  /** Once the vault stands still, a walk in progress stores the right tree exactly when it has
      got nothing wrong so far, whatever the watcher does meanwhile. */
  lemma {:induction false} WalkEndsRight(s: State, ls: seq<Label>)
    requires s.walk.Some? && [] !in s.walk.value.visit && Runs(s, ls)
    requires forall l :: l in ls ==> !l.Mutate? && !l.StoreWalk?
    requires Enabled(Run(s, ls), StoreWalk)
    ensures Apply(Run(s, ls), StoreWalk).snapshot == TreeOf(s.disk) <==> Covers(s.disk, s.walk.value, {})
    decreases |ls|
  {
    if ls == [] {
      DoneExactly(s.disk, s.walk.value);
    } else {
      var l := ls[0];
      assert l in ls && forall m :: m in ls[1..] ==> m in ls;
      WalkEndsRight(Apply(s, l), ls[1..]);
      WalkStepExact(s, l);
    }
  }

  lemma WalkStepExact(s: State, l: Label)
    requires s.walk.Some? && [] !in s.walk.value.visit && Enabled(s, l) && !l.Mutate? && !l.StoreWalk?
    ensures var s' := Apply(s, l);
      && s'.disk == s.disk && s'.walk.Some? && [] !in s'.walk.value.visit
      && (Covers(s.disk, s'.walk.value, {}) <==> Covers(s.disk, s.walk.value, {}))
  {
    var d, w := s.disk, s.walk.value;
    if l.Visit? {
      if Covers(d, w, {}) {
        VisitCovers(d, w, {}, l.p);
      } else if Covers(d, VisitStep(d, w, l.p), {}) {
        VisitCoversOnly(d, w, {}, l.p);
      }
    } else if l.List? {
      if Covers(d, w, {}) {
        ListCovers(d, w, {}, l.p);
      } else if Covers(d, ListStep(d, w, l.p), {}) {
        ListCoversOnly(d, w, {}, l.p);
      }
    }
  }

  /** Every key on which the working tree of the batch is wrong is still to be stat'ed, or lies
      below a path that is and will be found missing. */
  ghost predicate BatchCovers(s: State)
    requires s.batch.Some?
  {
    var b := s.batch.value;
    forall k :: Get(b.next, k) != Get(TreeOf(s.disk), k) ==>
      k in KeysOf(s.root, b.todo) || BelowMissing(s.root, b.todo, s.disk, k)
  }

  lemma BatchCoversIff(s: State)
    requires s.batch.Some?
    ensures var b := s.batch.value;
      BatchCovers(s) <==> Applied(b.next, BatchOn(s.root, b.todo, s.disk)) == TreeOf(s.disk)
  {
    BatchAgreesWithReconcile(s.root, s.batch.value.next, s.batch.value.todo, s.disk);
  }

  lemma BatchStepExact(s: State, l: Label)
    requires s.batch.Some? && Enabled(s, l) && !l.Mutate? && !l.Store?
    ensures var s' := Apply(s, l);
      s'.disk == s.disk && s'.batch.Some? && (BatchCovers(s') <==> BatchCovers(s))
  {
    if l.Stat? {
      StatOnStillVault(s);
      BatchCoversIff(s);
      BatchCoversIff(Apply(s, l));
    }
  }

  lemma StatOnStillVault(s: State)
    requires Enabled(s, Stat)
    ensures var b, b' := s.batch.value, Apply(s, Stat).batch.value;
      Applied(b'.next, BatchOn(s.root, b'.todo, s.disk)) == Applied(b.next, BatchOn(s.root, b.todo, s.disk))
  {
    var todo := s.batch.value.todo;
    var seen := seq(|todo| - 1, _ => s.disk);
    assert [s.disk] + seen == seq(|todo|, _ => s.disk);
    assert todo[..|todo|] == todo && todo[1..][..|seen|] == todo[1..];
    StatThenRest(s.root, s.batch.value.next, s.log, s.batch.value.todo, s.disk, seen);
  }

  /** Once the vault stands still, a batch in progress stores the right tree exactly when it
      still covers everything its working tree is wrong about, whatever walks do meanwhile. */
  lemma {:induction false} BatchEndsRight(s: State, ls: seq<Label>)
    requires s.batch.Some? && Runs(s, ls) && forall l :: l in ls ==> !l.Mutate? && !l.Store?
    requires Enabled(Run(s, ls), Store)
    ensures Apply(Run(s, ls), Store).snapshot == TreeOf(s.disk) <==> BatchCovers(s)
    decreases |ls|
  {
    if ls == [] {
      BatchDone(s);
    } else {
      assert ls[0] in ls && forall m :: m in ls[1..] ==> m in ls;
      BatchEndsRight(Apply(s, ls[0]), ls[1..]);
      BatchStepExact(s, ls[0]);
    }
  }

  lemma BatchDone(s: State)
    requires Enabled(s, Store)
    ensures BatchCovers(s) <==> s.batch.value.next == TreeOf(s.disk)
  {
    BatchCoversIff(s);
  }

  /** What is in progress goes on, and nothing new is begun. */
  predicate WindsDown(ls: seq<Label>) {
    forall i :: 0 <= i < |ls| ==> ls[i].Stat? || ls[i].Store? || ls[i].Visit? || ls[i].List? || ls[i].StoreWalk?
  }

  predicate BatchStoresFirst(ls: seq<Label>) {
    ls != [] && (ls[0].Store? || (!ls[0].StoreWalk? && BatchStoresFirst(ls[1..])))
  }

  lemma {:induction false} WalkAlone(s: State, ls: seq<Label>)
    requires s.batch == None && s.walk.Some? && [] !in s.walk.value.visit && Runs(s, ls) && WindsDown(ls)
    requires Run(s, ls).walk == None
    ensures Run(s, ls).snapshot == TreeOf(s.disk) <==> Covers(s.disk, s.walk.value, {})
    decreases |ls|
  {
    var l := ls[0];
    if l.StoreWalk? {
      DoneExactly(s.disk, s.walk.value);
      NothingLeft(Apply(s, l), ls[1..]);
    } else {
      WalkStepExact(s, l);
      WalkAlone(Apply(s, l), ls[1..]);
    }
  }

  lemma {:induction false} BatchAlone(s: State, ls: seq<Label>)
    requires s.walk == None && s.batch.Some? && Runs(s, ls) && WindsDown(ls) && Run(s, ls).batch == None
    ensures Run(s, ls).snapshot == TreeOf(s.disk) <==> BatchCovers(s)
    decreases |ls|
  {
    var l := ls[0];
    if l.Store? {
      BatchDone(s);
      NothingLeft(Apply(s, l), ls[1..]);
    } else {
      BatchStepExact(s, l);
      BatchAlone(Apply(s, l), ls[1..]);
    }
  }

  lemma NothingLeft(s: State, ls: seq<Label>)
    requires s.batch == None && s.walk == None && Runs(s, ls) && WindsDown(ls)
    ensures ls == []
  {
  }

  /** A walk and a batch in progress at once, on a vault that stands still: the index ends up
      right exactly when whichever of them stores last ends right by itself. */
  lemma {:induction false} OverlapEndsRight(s: State, ls: seq<Label>)
    requires s.batch.Some? && s.walk.Some? && [] !in s.walk.value.visit && Runs(s, ls) && WindsDown(ls)
    requires Run(s, ls).batch == None && Run(s, ls).walk == None
    ensures Run(s, ls).snapshot == TreeOf(s.disk) <==>
            if BatchStoresFirst(ls) then Covers(s.disk, s.walk.value, {}) else BatchCovers(s)
    decreases |ls|
  {
    var l, s' := ls[0], Apply(s, ls[0]);
    if l.Store? {
      WalkAlone(s', ls[1..]);
    } else if l.StoreWalk? {
      BatchStepExact(s, l);
      BatchAlone(s', ls[1..]);
    } else {
      WalkStepExact(s, l);
      BatchStepExact(s, l);
      OverlapEndsRight(s', ls[1..]);
    }
  }

  // ---- what a run with overlaps can lose ----

  /** Keys that nothing in the queue accounts for and on which the snapshot, the working tree of
      the batch, or the tree of the walk may nevertheless be wrong. */
  datatype Debts = Debts(snapshot: set<string>, batch: set<string>, walk: set<string>)

  /** Paths taken from the queue are lost on the snapshot and on a walk in progress, and dropped
      ones on everything; a stat settles its key for the batch; a store passes on the debts of
      what is stored. */
  ghost function Owing(s: State, debts: Debts, l: Label): Debts
    requires Enabled(s, l)
  {
    match l
    case Mutate(_, _) => debts
    case Load(n) =>
      var taken := KeysOf(s.root, s.queue[..n]);
      Debts(debts.snapshot + taken, debts.snapshot, debts.walk + taken)
    case Discard(n) =>
      var taken := KeysOf(s.root, s.queue[..n]);
      Debts(debts.snapshot + taken, debts.batch + taken, debts.walk + taken)
    case Stat => debts.(batch := debts.batch - KeysOf(s.root, s.batch.value.todo[..1]))
    case Store => debts.(snapshot := debts.batch)
    case BeginWalk => debts.(walk := {})
    case StoreWalk => debts.(snapshot := debts.walk)
    case Visit(_) => debts
    case List(_) => debts
  }

  ghost function OwingAfter(s: State, debts: Debts, ls: seq<Label>): Debts
    requires Runs(s, ls)
    decreases |ls|
  {
    if ls == [] then debts else OwingAfter(Apply(s, ls[0]), Owing(s, debts, ls[0]), ls[1..])
  }

  ghost predicate AllReported(s: State, ls: seq<Label>)
    requires Runs(s, ls)
    decreases |ls|
  {
    ls == [] || (Reported(s, ls[0]) && AllReported(Apply(s, ls[0]), ls[1..]))
  }

  ghost predicate RightBut(t: Tree, d: Disk, keys: set<string>) {
    forall k :: Get(t, k) != Get(TreeOf(d), k) ==> k in keys
  }

  ghost predicate Accounted(s: State, debts: Debts) {
    && RightBut(s.snapshot, s.disk, Queued(s) + debts.snapshot)
    && (s.batch.Some? ==> RightBut(s.batch.value.next, s.disk, Unprocessed(s) + debts.batch))
    && (s.walk.Some? ==> Covers(s.disk, s.walk.value, Queued(s) + debts.walk))
  }

  lemma MutateAccounted(s: State, debts: Debts, l: Label)
    requires Accounted(s, debts) && l.Mutate? && Reported(s, l)
    ensures Accounted(Apply(s, l), debts)
  {
    KeysOfConcat(s.root, s.queue, l.reported);
    if s.walk.Some? {
      var more := KeysOf(s.root, l.reported);
      CoversAfterChange(s.disk, l.disk, s.walk.value, Queued(s) + debts.walk, more);
      assert Queued(s) + debts.walk + more == Queued(Apply(s, l)) + debts.walk;
    }
  }

  lemma LoadAccounted(s: State, debts: Debts, n: nat)
    requires Accounted(s, debts) && Enabled(s, Load(n))
    ensures Accounted(Apply(s, Load(n)), Owing(s, debts, Load(n)))
  {
    assert s.queue == s.queue[..n] + s.queue[n..];
    KeysOfConcat(s.root, s.queue[..n], s.queue[n..]);
    if s.walk.Some? {
      assert Queued(s) + debts.walk == Queued(Apply(s, Load(n))) + Owing(s, debts, Load(n)).walk;
    }
  }

  lemma DiscardAccounted(s: State, debts: Debts, n: nat)
    requires Accounted(s, debts) && Enabled(s, Discard(n))
    ensures Accounted(Apply(s, Discard(n)), Owing(s, debts, Discard(n)))
  {
    assert s.queue == s.queue[..n] + s.queue[n..];
    KeysOfConcat(s.root, s.queue[..n], s.queue[n..]);
    if s.walk.Some? {
      assert Queued(s) + debts.walk == Queued(Apply(s, Discard(n))) + Owing(s, debts, Discard(n)).walk;
    }
  }

  lemma StatAccounted(s: State, debts: Debts)
    requires Accounted(s, debts) && Enabled(s, Stat)
    ensures Accounted(Apply(s, Stat), Owing(s, debts, Stat))
  {
    var s', todo, next := Apply(s, Stat), s.batch.value.todo, s.batch.value.next;
    ObservedAt(s);
    TreeOfClosed(s.disk);
    assert todo == todo[..1] + todo[1..];
    KeysOfConcat(s.root, todo[..1], todo[1..]);
    forall k | Get(s'.batch.value.next, k) != Get(TreeOf(s.disk), k)
      ensures k in Unprocessed(s') + Owing(s, debts, Stat).batch
    {
      StepRepairs(next, Seeing(s), TreeOf(s.disk), k);
      FirstStat(s, k);
    }
  }

  lemma FirstStat(s: State, k: string)
    requires Enabled(s, Stat) && !Mentions(Seeing(s), k)
    ensures k !in KeysOf(s.root, s.batch.value.todo[..1])
  {
    var todo := s.batch.value.todo;
    if RelOf(s.root, todo[0]).Some? {
      assert Seeing(s)[0] in Seeing(s);
    }
  }

  lemma WalkAccounted(s: State, debts: Debts, l: Label)
    requires Accounted(s, debts) && Enabled(s, l) && (l.BeginWalk? || l.Visit? || l.List? || l.StoreWalk?)
    ensures Accounted(Apply(s, l), Owing(s, debts, l))
  {
    match l
    case BeginWalk => StartCovers(s.disk, Queued(s) + {});
    case Visit(p) => VisitCovers(s.disk, s.walk.value, Queued(s) + debts.walk, p);
    case List(p) => ListCovers(s.disk, s.walk.value, Queued(s) + debts.walk, p);
    case StoreWalk => DoneCovers(s.disk, s.walk.value, Queued(s) + debts.walk);
  }

  lemma StepAccounted(s: State, debts: Debts, l: Label)
    requires Accounted(s, debts) && Enabled(s, l) && Reported(s, l)
    ensures Accounted(Apply(s, l), Owing(s, debts, l))
  {
    match l
    case Mutate(_, _) => MutateAccounted(s, debts, l);
    case Load(n) => LoadAccounted(s, debts, n);
    case Discard(n) => DiscardAccounted(s, debts, n);
    case Stat => StatAccounted(s, debts);
    case Store => assert KeysOf(s.root, []) == {};
    case _ => WalkAccounted(s, debts, l);
  }

  lemma {:induction false} RunAccounted(s: State, debts: Debts, ls: seq<Label>)
    requires Accounted(s, debts) && Runs(s, ls) && AllReported(s, ls)
    ensures Accounted(Run(s, ls), OwingAfter(s, debts, ls))
    decreases |ls|
  {
    if ls != [] {
      StepAccounted(s, debts, ls[0]);
      RunAccounted(Apply(s, ls[0]), Owing(s, debts, ls[0]), ls[1..]);
    }
  }

  /** Before its first walk the index owes every key of the vault. */
  ghost function FirstDebts(d: Disk): Debts { Debts(TreeOf(d).Keys, {}, {}) }

  /** Over every run of a live index in which changes are reported, overlaps included: the
      snapshot is wrong about the vault only at keys that are queued or owed. */
  lemma DivergenceIsOwed(root: Path, d: Disk, ls: seq<Label>)
    requires Runs(Started(root, d), ls) && AllReported(Started(root, d), ls)
    ensures var s := Run(Started(root, d), ls);
      RightBut(s.snapshot, s.disk, Queued(s) + OwingAfter(Started(root, d), FirstDebts(d), ls).snapshot)
  {
    StartCovers(d, Queued(Started(root, d)) + {});
    RunAccounted(Started(root, d), FirstDebts(d), ls);
  }

  /** What `Separate` buys: with no walk and no batch in progress, nothing is owed. */
  lemma SeparateOwesNothing(root: Path, d: Disk, ls: seq<Label>)
    requires Runs(Started(root, d), ls) && Diligent(Started(root, d), ls)
    ensures AllReported(Started(root, d), ls)
    ensures var s := Run(Started(root, d), ls);
      s.walk == None && s.batch == None ==> OwingAfter(Started(root, d), FirstDebts(d), ls).snapshot == {}
  {
    RunClear(Started(root, d), FirstDebts(d), ls);
  }

  predicate Clear(s: State, debts: Debts) {
    && !(s.batch.Some? && s.walk.Some?)
    && (s.batch.Some? ==> debts.batch == {}) && (s.walk.Some? ==> debts.walk == {})
    && (s.batch == None && s.walk == None ==> debts.snapshot == {})
  }

  lemma {:induction false} RunClear(s: State, debts: Debts, ls: seq<Label>)
    requires Clear(s, debts) && Runs(s, ls) && Diligent(s, ls)
    ensures AllReported(s, ls) && Clear(Run(s, ls), OwingAfter(s, debts, ls))
    decreases |ls|
  {
    if ls != [] {
      StepClear(s, debts, ls[0]);
      RunClear(Apply(s, ls[0]), Owing(s, debts, ls[0]), ls[1..]);
    }
  }

  lemma StepClear(s: State, debts: Debts, l: Label)
    requires Clear(s, debts) && Enabled(s, l) && Separate(s, l) && !l.Discard?
    ensures Clear(Apply(s, l), Owing(s, debts, l))
  {
  }
}
