/** A client that lags: the server does nothing wrong, and the client never learns of a file. */
module SocketBoundaries {
  import opened Wrappers
  import opened Sequences
  import opened Keys
  import opened Vault
  import opened Index
  import opened IndexSystem
  import opened IndexBoundaries
  import Sockets

  function Times<T>(x: T, n: nat): (r: seq<T>)
    ensures |r| == n && forall i :: 0 <= i < n ==> r[i] == x
  {
    seq(n, _ => x)
  }

  /** One known file reported over and over. */
  lemma {:induction false} StatAgain(s: State, file: Path, e: Entry, n: nat) returns (ls: seq<Label>)
    requires file != [] && StatOf(s.disk, file) == Some(e) && e != DirEntry
    requires s.batch.Some? && s.batch.value.todo == Times(s.root + file, n)
    requires Get(s.batch.value.next, Join(file)) == Some(e)
    ensures Leads(s, ls, s.(batch := Some(Batch(s.batch.value.next, [])),
                            log := s.log + Times(Modified(Join(file), e), n)))
    decreases n
  {
    var end := s.(batch := Some(Batch(s.batch.value.next, [])), log := s.log + Times(Modified(Join(file), e), n));
    if n == 0 {
      ls := [];
      NoneMore(s.log);
      assert Times(s.root + file, 0) == [] && Times(Modified(Join(file), e), 0) == [];
    } else {
      StatStep(s, file);
      assert s.batch.value.todo[1..] == Times(s.root + file, n - 1);
      assert s.batch.value.next[Join(file) := e] == s.batch.value.next;
      var s' := Apply(s, Stat);
      var rest := StatAgain(s', file, e, n - 1);
      assert [Modified(Join(file), e)] + Times(Modified(Join(file), e), n - 1) == Times(Modified(Join(file), e), n);
      ConcatAssociates(s.log, [Modified(Join(file), e)], Times(Modified(Join(file), e), n - 1));
      LeadsBy(s, Stat, s', rest, end);
      ls := [Stat] + rest;
    }
  }

  /** A new file, and then one known file modified as often as a ring has places. */
  function Flood(d: Disk, added: Path, busy: Path): seq<Event>
    requires added in d && busy in d
  {
    [Created(Join(added), EntryOf(d[added]))] + Times(Modified(Join(busy), EntryOf(d[busy])), Sockets.CAPACITY)
  }

  lemma FloodHappens(root: Path, d: Disk, d': Disk, added: Path, busy: Path) returns (ls: seq<Label>)
    requires AddsFile(d, d', added) && busy != [] && busy in d && busy in d' && d'[busy].File?
    ensures Leads(At(root, d, [], TreeOf(d), [], None), ls, At(root, d', [], TreeOf(d'), Flood(d', added, busy), None))
  {
    var told := [Created(Join(added), EntryOf(d'[added]))];
    var many := Times(root + busy, Sockets.CAPACITY);
    var s0 := At(root, d, [], TreeOf(d), [], None);
    var s3 := At(root, d', [], TreeOf(d), told, Some(Batch(TreeOf(d'), many)));
    var s4 := At(root, d', [], TreeOf(d), Flood(d', added, busy), Some(Batch(TreeOf(d'), [])));
    var s5 := At(root, d', [], TreeOf(d'), Flood(d', added, busy), None);
    TreeAt(d', busy);
    var again := StatAgain(s3, busy, EntryOf(d'[busy]), Sockets.CAPACITY);
    var first := FileThenMany(root, d, d', added, many);
    assert Leads(s5, [], s5);
    LeadsBy(s4, Store, s5, [], s5);
    LeadsConcat(s3, again, s4, [Store] + [], s5);
    LeadsConcat(s0, first, s3, again + ([Store] + []), s5);
    ls := first + (again + ([Store] + []));
  }

  /** The new file and some more paths are reported, loaded, and the file is stat'ed. */
  lemma FileThenMany(root: Path, d: Disk, d': Disk, added: Path, many: seq<Path>) returns (ls: seq<Label>)
    requires AddsFile(d, d', added)
    ensures Leads(At(root, d, [], TreeOf(d), [], None), ls,
                  At(root, d', [], TreeOf(d), [Created(Join(added), EntryOf(d'[added]))],
                     Some(Batch(TreeOf(d'), many))))
  {
    var all := [root + added] + many;
    FileReported(root, d, d', added);
    KeysOfConcat(root, [root + added], many);
    TreeWith(d, d', added);
    var s0 := At(root, d, [], TreeOf(d), [], None);
    var s1 := At(root, d', all, TreeOf(d), [], None);
    var s2 := At(root, d', [], TreeOf(d), [], Some(Batch(TreeOf(d), all)));
    var s3 := At(root, d', [], TreeOf(d), [Created(Join(added), EntryOf(d'[added]))], Some(Batch(TreeOf(d'), many)));
    assert s0.queue + all == all && all[1..] == many;
    LoadAll(s1);
    StatStep(s2, added);
    assert Leads(s3, [], s3);
    LeadsBy(s2, Stat, s3, [], s3);
    LeadsBy(s1, Load(|all|), s2, [Stat] + [], s3);
    LeadsBy(s0, Mutate(d', all), s1, [Load(|all|)] + ([Stat] + []), s3);
    ls := [Mutate(d', all)] + ([Load(|all|)] + ([Stat] + []));
  }

  lemma TreeWith(d: Disk, d': Disk, file: Path)
    requires AddsFile(d, d', file)
    ensures TreeOf(d)[Join(file) := EntryOf(d'[file])] == TreeOf(d') && Join(file) !in TreeOf(d)
  {
    TreeAt(d, file);
    TreeAt(d', file);
    SameTree(TreeOf(d)[Join(file) := EntryOf(d'[file])], TreeOf(d'));
  }

  /** The server publishes; the socket is not woken. */
  lemma {:induction false} PublishAll(s: Sockets.Socket, events: seq<Event>) returns (steps: seq<Sockets.Step>)
    requires Sockets.InStep(s.events) && Sockets.InStep(s.plugins) && !s.events.gone
    ensures Sockets.Runs(s, steps)
    ensures Sockets.Run(s, steps) == s.(events := s.events.(log := s.events.log + events))
    decreases |events|
  {
    if events == [] {
      NoneMore(s.events.log);
      steps := [];
    } else {
      var s' := Sockets.Apply(s, Sockets.Publish(events[0]));
      var rest := PublishAll(s', events[1..]);
      ConcatAssociates(s.events.log, [events[0]], events[1..]);
      assert [events[0]] + events[1..] == events;
      steps := [Sockets.Publish(events[0])] + rest;
      assert steps[1..] == rest;
    }
  }

  /** The socket reads on to the end. */
  lemma {:induction false} TakeAll(s: Sockets.Socket) returns (steps: seq<Sockets.Step>)
    requires Sockets.InStep(s.events) && Sockets.InStep(s.plugins) && s.conn.open && !Sockets.Behind(s.events)
    ensures Sockets.Runs(s, steps)
    ensures var c := Sockets.Run(s, steps);
      && c.conn.open && c.events == s.events.(next := |s.events.log|)
      && Sockets.EventsIn(c.conn.sent) == Sockets.EventsIn(s.conn.sent) + s.events.log[s.events.next..]
    decreases |s.events.log| - s.events.next
  {
    var log, next := s.events.log, s.events.next;
    if next == |log| {
      steps := [];
      assert log[next..] == [];
      NoneMore(Sockets.EventsIn(s.conn.sent));
    } else {
      var l := Sockets.TakeEvent(true);
      Sockets.EventGot(s, true);
      var s' := Sockets.Apply(s, l);
      var rest := TakeAll(s');
      steps := [l] + rest;
      assert steps[1..] == rest;
      SentOneMore(s.conn.sent, log[next]);
      FromHere(log, next);
      ConcatAssociates(Sockets.EventsIn(s.conn.sent), [log[next]], log[next + 1..]);
    }
  }

  lemma SentOneMore(sent: seq<Sockets.Frame>, e: Event)
    ensures Sockets.EventsIn(sent + [Sockets.EventFrame(e)]) == Sockets.EventsIn(sent) + [e]
  {
    assert (sent + [Sockets.EventFrame(e)])[..|sent|] == sent;
  }

  lemma FromHere<T>(xs: seq<T>, i: nat)
    requires i < |xs|
    ensures xs[i..] == [xs[i]] + xs[i + 1..]
  {
  }

  /** One event too many arrives before the socket is woken: the first of them is lost. */
  lemma LosesTheFirst(vault: string, events: seq<Event>) returns (steps: seq<Sockets.Step>)
    requires |events| == Sockets.CAPACITY + 1
    ensures var c0 := Sockets.Opened(vault, [], []);
      && Sockets.Runs(c0, steps) && Sockets.Run(c0, steps).conn.open
      && Sockets.Run(c0, steps).events == Sockets.Ring(events, |events|, false)
      && Sockets.EventsIn(Sockets.Run(c0, steps).conn.sent) == events[1..]
  {
    var c0 := Sockets.Opened(vault, [], []);
    var publish := PublishAll(c0, events);
    assert [] + events == events;
    var c1 := c0.(events := Sockets.Ring(events, 0, false));
    var l := Sockets.TakeEvent(true);
    var c2 := Sockets.Apply(c1, l);
    var take := TakeAll(c2);
    var rest := [l] + take;
    assert rest[1..] == take;
    SocketRunConcat(c0, publish, rest);
    steps := publish + rest;
    assert [] + events[1..] == events[1..];
  }

  lemma {:induction false} SocketRunConcat(s: Sockets.Socket, a: seq<Sockets.Step>, b: seq<Sockets.Step>)
    requires Sockets.Runs(s, a) && Sockets.Runs(Sockets.Run(s, a), b)
    ensures Sockets.Runs(s, a + b) && Sockets.Run(s, a + b) == Sockets.Run(Sockets.Run(s, a), b)
    decreases |a|
  {
    if a == [] {
      assert a + b == b;
    } else {
      assert (a + b)[1..] == a[1..] + b;
      SocketRunConcat(Sockets.Apply(s, a[0]), a[1..], b);
    }
  }

  /** From a warm index, in a run that is diligent and whose events tell everything: a client that
      opens its socket and loads the snapshot first, and that is not woken until the ring is one
      event over, stays connected, reads to the end, and lacks a file of the vault. */
  lemma LaggingClientEndsWrong(root: Path, d: Disk, d': Disk, added: Path, busy: Path, vault: string)
    returns (ls: seq<Label>, steps: seq<Sockets.Step>)
    requires AddsFile(d, d', added) && busy != [] && busy != added && busy in d && busy in d' && d'[busy].File?
    ensures var end := At(root, d', [], TreeOf(d'), Flood(d', added, busy), None);
      && Leads(At(root, d, [], TreeOf(d), [], None), ls, end)
      && Replay(TreeOf(d), end.log) == TreeOf(d') && |end.log| == 1025
      && var c0 := Sockets.Opened(vault, [], []);
      && Sockets.Runs(c0, steps) && var c := Sockets.Run(c0, steps);
      && c.conn.open && c.events == Sockets.Ring(end.log, |end.log|, false)
      && Join(added) in TreeOf(d') && Join(added) !in Replay(TreeOf(d), Sockets.EventsIn(c.conn.sent))
  {
    var flood := Flood(d', added, busy);
    ls := FloodHappens(root, d, d', added, busy);
    steps := LosesTheFirst(vault, flood);
    TreeWith(d, d', added);
    TreeAt(d, busy);
    TreeAt(d', busy);
    var e, m := EntryOf(d'[added]), Modified(Join(busy), EntryOf(d'[busy]));
    assert flood[1..] == Times(m, Sockets.CAPACITY);
    if Join(busy) == Join(added) { JoinInjective(busy, added); }
    BusyIsSilent(m, Sockets.CAPACITY, Join(added));
    ReplayAt(TreeOf(d), flood[1..], Join(added));
    BusyChangesNothing(TreeOf(d'), m, Sockets.CAPACITY);
    FirstThenBusy(TreeOf(d), Created(Join(added), e), Times(m, Sockets.CAPACITY));
  }

  lemma {:induction false} BusyIsSilent(m: Event, n: nat, k: string)
    requires Effect(m, k) == None
    ensures LastEffect(Times(m, n), k) == None
  {
    if n > 0 {
      assert Times(m, n)[..n - 1] == Times(m, n - 1);
      BusyIsSilent(m, n - 1, k);
    }
  }

  lemma {:induction false} BusyChangesNothing(t: Tree, m: Event, n: nat)
    requires ApplyEvent(t, m) == t
    ensures Replay(t, Times(m, n)) == t
  {
    if n > 0 {
      assert Times(m, n)[..n - 1] == Times(m, n - 1);
      BusyChangesNothing(t, m, n - 1);
    }
  }

  lemma FirstThenBusy(t: Tree, first: Event, rest: seq<Event>)
    ensures Replay(t, [first] + rest) == Replay(ApplyEvent(t, first), rest)
  {
    ReplayConcat(t, [first], rest);
    assert [first][..0] == [];
  }
}
