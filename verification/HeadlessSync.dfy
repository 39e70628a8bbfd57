/** The headless-sync plugin: state changed under a lock, written out after the lock is dropped.
    A file is truncated first and filled afterwards, either of which may fail; failures are
    ignored. What was serialised reads back, and a file that is not whole does not parse. */
module HeadlessSync {
  import opened Wrappers

  datatype Token = Token(token: string, email: Option<string>, name: Option<string>)

  datatype SyncConfig = SyncConfig(mode: string, deviceName: string)

  datatype SyncState = SyncState(
    vaultId: string,
    remoteVault: string,
    remoteVaultName: Option<string>,
    status: string,
    lastSync: Option<string>,
    error: Option<string>,
    config: SyncConfig)

  type States = map<string, SyncState>

  datatype SetupBody = SetupBody(
    vaultId: Option<string>,
    remoteVault: Option<string>,
    remoteVaultName: Option<string>,
    deviceName: Option<string>,
    mode: Option<string>)

  datatype Request =
    | Login(token: Option<string>, email: Option<string>, name: Option<string>)
    | Logout
    | Setup(body: SetupBody)
    | Start(vaultId: Option<string>)
    | Stop(vaultId: Option<string>)
    | Unlink(vaultId: Option<string>)

  datatype Reply = Reply(code: nat, state: Option<SyncState>)

  /** What the world answers: is the vault registered, does the CLI run; can a file be opened (or
      removed), can it be filled; and is it whole when one of several writers of the same content
      is through. */
  datatype World = World(registered: bool, cliRuns: bool, opens: bool, fills: bool, whole: bool)

  /** A file as the next start finds it. */
  datatype Doc<+T> = Missing | Garbage | Saved(value: T)

  function Load<T>(file: Doc<T>, default: T): T {
    if file.Saved? then file.value else default
  }

  /** Being logged out is kept as the absence of the token file. */
  function TokenDoc(token: Option<Token>): Doc<Option<Token>> {
    if token.Some? then Saved(token) else Missing
  }

  /** The change a request asks for once its body has been checked. */
  datatype Op =
    | SetToken(token: Option<Token>)
    | Insert(state: SyncState)
    | SetStatus(vaultId: string, status: string)
    | Remove(vaultId: string)

  function GetOr(o: Option<string>, default: string): string {
    if o.Some? then o.value else default
  }

  function Validate(req: Request): Result<Op, nat> {
    match req
    case Login(token, email, name) =>
      if token.None? || token.value == "" then Err(400) else Ok(SetToken(Some(Token(token.value, email, name))))
    case Logout => Ok(SetToken(None))
    case Setup(b) =>
      if b.vaultId.None? || b.remoteVault.None? then Err(400)
      else
        Ok(Insert(SyncState(b.vaultId.value, b.remoteVault.value, b.remoteVaultName, "stopped", None, None,
                            SyncConfig(GetOr(b.mode, "bidirectional"), GetOr(b.deviceName, "ignis-headless")))))
    case Start(v) => if v.None? then Err(400) else Ok(SetStatus(v.value, "running"))
    case Stop(v) => if v.None? then Err(400) else Ok(SetStatus(v.value, "stopped"))
    case Unlink(v) => if v.None? then Err(400) else Ok(Remove(v.value))
  }

  /** The change of the state map; a status can only be set for a vault that was set up. */
  function Change(op: Op, states: States): Option<States> {
    match op
    case SetToken(_) => Some(states)
    case Insert(state) => Some(states[state.vaultId := state])
    case SetStatus(v, status) =>
      if v in states then
        var was := states[v];
        Some(states[v := was.(status := status, error := if status == "running" then None else was.error)])
      else None
    case Remove(v) => Some(states - {v})
  }

  /** The state reported back to the caller. */
  function Reported(op: Op, states: States): Option<SyncState> {
    match op
    case Insert(state) => Some(state)
    case SetStatus(v, _) => if v in states then Some(states[v]) else None
    case _ => None
  }

  // ---- any number of requests at once ----

  /** One lock-protected value and its file. `past` lists every value the memory has held, the
      current one last; `kept` says which of them the file last held whole. While the file is
      torn, `torn` is the request that truncated it last. */
  datatype Store<T> = Store(past: seq<T>, file: Doc<T>, kept: nat, torn: Option<nat>)

  predicate Live<T>(s: Store<T>) { s.past != [] }

  function Now<T>(s: Store<T>): T
    requires Live(s)
  {
    s.past[|s.past| - 1]
  }

  function Opened<T>(file: Doc<T>, default: T): Store<T> {
    Store([Load(file, default)], file, 0, None)
  }

  /** Opening for writing empties the file. */
  function Truncated<T>(s: Store<T>, id: nat): Store<T> {
    s.(file := Garbage, torn := Some(id))
  }

  /** The file holds the current value, whole. */
  function Whole<T>(s: Store<T>, doc: Doc<T>): Store<T>
    requires Live(s)
  {
    s.(file := doc, kept := |s.past| - 1, torn := None)
  }

  /** Whether a writer that is through leaves the file whole: if it was the last to truncate it, or
      that one is through already. Otherwise it depends on how the writes fell. */
  predicate LeavesWhole<T>(s: Store<T>, id: nat, w: World) {
    w.fills && (s.torn == None || s.torn == Some(id) || w.whole)
  }

  function Filled<T>(s: Store<T>, id: nat, doc: Doc<T>, w: World): Store<T>
    requires Live(s)
  {
    if LeavesWhole(s, id, w) then Whole(s, doc) else s
  }

  datatype Image = TokenImage(token: Option<Token>) | StatesImage(states: States)

  /** A change that has been made: which, the position it took in `past`, what to report. */
  datatype Ticket = Ticket(op: Op, made: nat, state: Option<SyncState>)

  datatype Phase =
    | Begin(req: Request)
    | Authenticate(op: Op)
    | Lookup(op: Op)
    | RunCli(op: Op)
    | Ready(op: Op)
    | Dropping(ticket: Ticket)
    | Dirty(ticket: Ticket)
    | Writing(ticket: Ticket, image: Image)
    | Filling(ticket: Ticket, image: Image)
    | Refused(code: nat)
    | Done(ticket: Ticket)

  /** The plugin with the requests it is serving, each at its own point. */
  datatype Plugin = Plugin(
    token: Store<Option<Token>>,
    states: Store<States>,
    logs: map<string, seq<string>>,
    calls: map<nat, Phase>)

  type Server = s: Plugin | Live(s.token) && Live(s.states)
    witness Plugin(Opened(Missing, None), Opened(Missing, map[]), map[], map[])

  datatype Label = Arrive(id: nat, req: Request) | Step(id: nat, world: World)

  /** `HeadlessSync::new` */
  function New(tokenFile: Doc<Option<Token>>, statesFile: Doc<States>): Server {
    Plugin(Opened(tokenFile, None), Opened(statesFile, map[]), map[], map[])
  }

  predicate OnToken(op: Op) { op.SetToken? }

  predicate Holding(p: Phase, onToken: bool) {
    (p.Writing? || p.Filling?) && OnToken(p.ticket.op) == onToken
  }

  /** A request holds the read lock of the store it is writing out, and only then. */
  predicate Locked(s: Server, onToken: bool) {
    exists id :: id in s.calls && Holding(s.calls[id], onToken)
  }

  predicate Enabled(s: Server, l: Label) {
    match l
    case Arrive(id, _) => id !in s.calls
    case Step(id, _) =>
      && id in s.calls && !s.calls[id].Refused? && !s.calls[id].Done?
      && (s.calls[id].Ready? ==> !Locked(s, OnToken(s.calls[id].op)))
  }

  /** The change itself, made under the write lock. */
  function Commit(s: Server, id: nat, op: Op): Server {
    if OnToken(op) then
      s.(token := s.token.(past := s.token.past + [op.token]),
         calls := s.calls[id := Dirty(Ticket(op, |s.token.past|, None))])
    else
      match Change(op, Now(s.states))
      case None => s.(calls := s.calls[id := Refused(404)])
      case Some(states) =>
        var ticket := Ticket(op, |s.states.past|, Reported(op, states));
        s.(states := s.states.(past := s.states.past + [states]),
           calls := s.calls[id := if op.Remove? then Dropping(ticket) else Dirty(ticket)])
  }

  /** The file is opened for writing, which empties it, or removed. A failure ends the attempt. */
  function Open(s: Server, id: nat, ticket: Ticket, image: Image, w: World): Server {
    if !w.opens then s.(calls := s.calls[id := Done(ticket)])
    else
      match image
      case TokenImage(None) => s.(token := Whole(s.token, Missing), calls := s.calls[id := Done(ticket)])
      case TokenImage(Some(_)) => s.(token := Truncated(s.token, id), calls := s.calls[id := Filling(ticket, image)])
      case StatesImage(_) => s.(states := Truncated(s.states, id), calls := s.calls[id := Filling(ticket, image)])
  }

  function Fill(s: Server, id: nat, ticket: Ticket, image: Image, w: World): Server {
    var s' := s.(calls := s.calls[id := Done(ticket)]);
    match image
    case TokenImage(t) => s'.(token := Filled(s.token, id, Saved(t), w))
    case StatesImage(m) => s'.(states := Filled(s.states, id, Saved(m), w))
  }

  function Advance(s: Server, id: nat, w: World): Server
    requires id in s.calls
  {
    match s.calls[id]
    case Begin(req) =>
      var next := match Validate(req)
        case Err(code) => Refused(code)
        case Ok(op) => if req.Setup? then Authenticate(op) else Ready(op);
      s.(calls := s.calls[id := next])
    case Authenticate(op) => s.(calls := s.calls[id := if Now(s.token).Some? then Lookup(op) else Refused(401)])
    case Lookup(op) => s.(calls := s.calls[id := if w.registered then RunCli(op) else Refused(404)])
    case RunCli(op) => s.(calls := s.calls[id := if w.cliRuns then Ready(op) else Refused(500)])
    case Ready(op) => Commit(s, id, op)
    case Dropping(t) =>
      s.(logs := if t.op.Remove? then s.logs - {t.op.vaultId} else s.logs, calls := s.calls[id := Dirty(t)])
    case Dirty(t) =>
      var image := if OnToken(t.op) then TokenImage(Now(s.token)) else StatesImage(Now(s.states));
      s.(calls := s.calls[id := Writing(t, image)])
    case Writing(t, image) => Open(s, id, t, image, w)
    case Filling(t, image) => Fill(s, id, t, image, w)
    case Refused(_) => s
    case Done(_) => s
  }

  function Apply(s: Server, l: Label): Server
    requires Enabled(s, l)
  {
    match l
    case Arrive(id, req) => s.(calls := s.calls[id := Begin(req)])
    case Step(id, w) => Advance(s, id, w)
  }

  predicate Runs(s: Server, ls: seq<Label>)
    decreases |ls|
  {
    ls != [] ==> Enabled(s, ls[0]) && Runs(Apply(s, ls[0]), ls[1..])
  }

  function Run(s: Server, ls: seq<Label>): Server
    requires Runs(s, ls)
    decreases |ls|
  {
    if ls == [] then s else Run(Apply(s, ls[0]), ls[1..])
  }

  // ---- what every interleaving keeps ----

  /** The change has been made and its write is not over. */
  predicate Pending(p: Phase) { p.Dropping? || p.Dirty? || p.Writing? || p.Filling? }

  predicate PendingOn(p: Phase, onToken: bool) { Pending(p) && OnToken(p.ticket.op) == onToken }

  predicate FillingOn(p: Phase, onToken: bool) { p.Filling? && OnToken(p.ticket.op) == onToken }

  /** A file that is not torn loads to the value it last held whole; a torn one to the default.
      With a writer at work, a file that is not torn is up to date. */
  ghost predicate Accounted<T>(st: Store<T>, default: T, calls: map<nat, Phase>, onToken: bool) {
    && Live(st) && st.kept < |st.past|
    && (if st.torn.Some? then st.file == Garbage else Load(st.file, default) == st.past[st.kept])
    && (st.torn == None ==> forall id :: id in calls && FillingOn(calls[id], onToken) ==> st.kept == |st.past| - 1)
  }

  /** The ticket is true: the value it names came from the value before it by its change. */
  predicate MadeBy(t: Ticket, token: seq<Option<Token>>, states: seq<States>) {
    if OnToken(t.op) then 1 <= t.made < |token| && token[t.made] == t.op.token
    else
      && 1 <= t.made < |states|
      && Change(t.op, states[t.made - 1]) == Some(states[t.made])
      && t.state == Reported(t.op, states[t.made])
  }

  /** Every ticket is true, and an image being written is the memory as it still is. */
  predicate InOrder(p: Phase, token: Store<Option<Token>>, states: Store<States>)
    requires Live(token) && Live(states)
  {
    match p
    case Dropping(t) => t.op.Remove? && MadeBy(t, token.past, states.past)
    case Dirty(t) => MadeBy(t, token.past, states.past)
    case Writing(t, image) => MadeBy(t, token.past, states.past) && image == ImageOf(t.op, token, states)
    case Filling(t, image) =>
      && MadeBy(t, token.past, states.past) && image == ImageOf(t.op, token, states)
      && (image.TokenImage? ==> image.token.Some?)
    case Done(t) => MadeBy(t, token.past, states.past)
    case _ => true
  }

  function ImageOf(op: Op, token: Store<Option<Token>>, states: Store<States>): Image
    requires Live(token) && Live(states)
  {
    if OnToken(op) then TokenImage(Now(token)) else StatesImage(Now(states))
  }

  ghost predicate Inv(s: Server) {
    && Accounted(s.token, None, s.calls, true)
    && Accounted(s.states, map[], s.calls, false)
    && forall id :: id in s.calls ==> InOrder(s.calls[id], s.token, s.states)
  }

  lemma NewInv(tokenFile: Doc<Option<Token>>, statesFile: Doc<States>)
    ensures Inv(New(tokenFile, statesFile)) && Unfailed(New(tokenFile, statesFile))
  {
  }

  lemma CommitInv(s: Server, id: nat, op: Op)
    requires Inv(s) && id in s.calls && s.calls[id] == Ready(op) && !Locked(s, OnToken(op))
    ensures Inv(Commit(s, id, op))
  {
    var s' := Commit(s, id, op);
    OthersInOrder(s, s', id);
  }

  /** Longer histories leave every other request in order, unless it was just writing. */
  lemma OthersInOrder(s: Server, s': Server, id: nat)
    requires forall i :: i in s.calls ==> InOrder(s.calls[i], s.token, s.states)
    requires s.token.past <= s'.token.past && s.states.past <= s'.states.past
    requires s'.token.past == s.token.past || !Locked(s, true)
    requires s'.states.past == s.states.past || !Locked(s, false)
    requires id in s'.calls && s'.calls == s.calls[id := s'.calls[id]] && InOrder(s'.calls[id], s'.token, s'.states)
    ensures forall i :: i in s'.calls ==> InOrder(s'.calls[i], s'.token, s'.states)
  {
    forall i | i in s'.calls && i != id ensures InOrder(s'.calls[i], s'.token, s'.states) {
      assert InOrder(s.calls[i], s.token, s.states);
      assert Holding(s.calls[i], true) ==> Locked(s, true);
      assert Holding(s.calls[i], false) ==> Locked(s, false);
    }
  }

  lemma OpenInv(s: Server, id: nat, w: World)
    requires Inv(s) && id in s.calls && s.calls[id].Writing?
    ensures Inv(Advance(s, id, w))
  {
    assert InOrder(s.calls[id], s.token, s.states);
    OthersInOrder(s, Advance(s, id, w), id);
  }

  lemma FillInv(s: Server, id: nat, w: World)
    requires Inv(s) && id in s.calls && s.calls[id].Filling?
    ensures Inv(Advance(s, id, w))
  {
    assert InOrder(s.calls[id], s.token, s.states);
    OthersInOrder(s, Advance(s, id, w), id);
  }

  lemma StepInv(s: Server, l: Label)
    requires Inv(s) && Enabled(s, l)
    ensures Inv(Apply(s, l))
  {
    if l.Step? && s.calls[l.id].Ready? {
      CommitInv(s, l.id, s.calls[l.id].op);
    } else if l.Step? && s.calls[l.id].Writing? {
      OpenInv(s, l.id, l.world);
    } else if l.Step? && s.calls[l.id].Filling? {
      FillInv(s, l.id, l.world);
    } else {
      PlainInv(s, l);
    }
  }

  predicate Plain(s: Server, l: Label)
    requires Enabled(s, l)
  {
    l.Step? ==> !s.calls[l.id].Ready? && !s.calls[l.id].Writing? && !s.calls[l.id].Filling?
  }

  /** A step that touches neither memory nor files. */
  lemma PlainStep(s: Server, l: Label)
    requires Inv(s) && Enabled(s, l) && Plain(s, l)
    ensures var s' := Apply(s, l);
      && s'.token == s.token && s'.states == s.states && s'.calls == s.calls[l.id := s'.calls[l.id]]
      && !s'.calls[l.id].Filling? && InOrder(s'.calls[l.id], s.token, s.states)
  {
    if l.Step? {
      assert InOrder(s.calls[l.id], s.token, s.states);
    }
  }

  lemma PlainInv(s: Server, l: Label)
    requires Inv(s) && Enabled(s, l) && Plain(s, l)
    ensures Inv(Apply(s, l))
  {
    PlainStep(s, l);
    MoveInv(s, Apply(s, l), l.id);
  }

  lemma MoveInv(s: Server, s': Server, id: nat)
    requires Inv(s) && s'.token == s.token && s'.states == s.states
    requires id in s'.calls && s'.calls == s.calls[id := s'.calls[id]]
    requires !s'.calls[id].Filling? && InOrder(s'.calls[id], s.token, s.states)
    ensures Inv(s')
  {
  }

  lemma {:induction false} RunInv(s: Server, ls: seq<Label>)
    requires Inv(s) && Runs(s, ls)
    ensures Inv(Run(s, ls))
    decreases |ls|
  {
    if ls != [] {
      StepInv(s, ls[0]);
      RunInv(Apply(s, ls[0]), ls[1..]);
    }
  }

  // ---- when no write fails ----

  predicate Succeeds(s: Server, l: Label)
    requires Enabled(s, l)
  {
    l.Step? ==> (s.calls[l.id].Writing? ==> l.world.opens) && (s.calls[l.id].Filling? ==> l.world.fills)
  }

  predicate WritesSucceed(s: Server, ls: seq<Label>)
    requires Runs(s, ls)
    decreases |ls|
  {
    ls == [] || (Succeeds(s, ls[0]) && WritesSucceed(Apply(s, ls[0]), ls[1..]))
  }

  /** A change with this number is made and its write is not over. */
  predicate Owed(made: int, calls: map<nat, Phase>, onToken: bool) {
    exists id :: id in calls && PendingOn(calls[id], onToken) && calls[id].ticket.made == made
  }

  /** The file is torn only by a request still filling it; otherwise it lags only behind a request
      whose write is not over, and never behind one that is done. */
  ghost predicate Prompt<T>(st: Store<T>, calls: map<nat, Phase>, onToken: bool) {
    && (st.torn.Some? ==> st.torn.value in calls && FillingOn(calls[st.torn.value], onToken))
    && (st.torn == None ==>
          && (st.kept == |st.past| - 1 || Owed(|st.past| - 1, calls, onToken))
          && forall id :: id in calls && calls[id].Done? && OnToken(calls[id].ticket.op) == onToken ==>
               calls[id].ticket.made <= st.kept)
  }

  ghost predicate Unfailed(s: Server) {
    Prompt(s.token, s.calls, true) && Prompt(s.states, s.calls, false)
  }

  /** A call that moves on, neither finishing nor making a change on this store. */
  lemma StillPrompt<T>(st: Store<T>, calls: map<nat, Phase>, id: nat, p: Phase, onToken: bool)
    requires Prompt(st, calls, onToken)
    requires id in calls && PendingOn(calls[id], onToken) ==>
      PendingOn(p, onToken) && p.ticket.made == calls[id].ticket.made && (calls[id].Filling? ==> p.Filling?)
    requires p.Done? && OnToken(p.ticket.op) == onToken ==> id in calls && calls[id] == p
    ensures Prompt(st, calls[id := p], onToken)
  {
    var calls' := calls[id := p];
    if i :| i in calls && PendingOn(calls[i], onToken) && calls[i].ticket.made == |st.past| - 1 {
      assert i in calls' && PendingOn(calls'[i], onToken);
    }
  }

  lemma CommitPrompt(s: Server, id: nat, op: Op)
    requires Inv(s) && Unfailed(s) && id in s.calls && s.calls[id] == Ready(op) && !Locked(s, OnToken(op))
    ensures Unfailed(Commit(s, id, op))
  {
    var s' := Commit(s, id, op);
    var p := s'.calls[id];
    if p.Refused? || OnToken(op) {
      StillPrompt(s.states, s.calls, id, p, false);
    }
    if p.Refused? || !OnToken(op) {
      StillPrompt(s.token, s.calls, id, p, true);
    }
    if !p.Refused? {
      assert PendingOn(p, OnToken(op));
      var torn := if OnToken(op) then s.token.torn else s.states.torn;
      assert torn.Some? ==> Holding(s.calls[torn.value], OnToken(op));
    }
  }

  lemma OpenPrompt(s: Server, id: nat, w: World)
    requires Inv(s) && Unfailed(s) && id in s.calls && s.calls[id].Writing? && w.opens
    ensures Unfailed(Advance(s, id, w))
  {
    var s' := Advance(s, id, w);
    assert InOrder(s.calls[id], s.token, s.states);
    if s.calls[id].image.TokenImage? {
      StillPrompt(s.states, s.calls, id, s'.calls[id], false);
      TicketsInPast(s);
    } else {
      StillPrompt(s.token, s.calls, id, s'.calls[id], true);
    }
  }

  lemma TicketsInPast(s: Server)
    requires Inv(s)
    ensures forall id :: id in s.calls && s.calls[id].Done? ==>
      s.calls[id].ticket.made < if OnToken(s.calls[id].ticket.op) then |s.token.past| else |s.states.past|
  {
    forall id | id in s.calls && s.calls[id].Done?
      ensures s.calls[id].ticket.made < if OnToken(s.calls[id].ticket.op) then |s.token.past| else |s.states.past|
    {
      assert InOrder(s.calls[id], s.token, s.states);
    }
  }

  lemma FilledPrompt<T>(st: Store<T>, calls: map<nat, Phase>, id: nat, onToken: bool, doc: Doc<T>, w: World)
    requires Live(st) && Prompt(st, calls, onToken) && id in calls && FillingOn(calls[id], onToken) && w.fills
    requires st.torn == None ==> st.kept == |st.past| - 1
    requires calls[id].ticket.made < |st.past|
    requires forall i :: i in calls && calls[i].Done? && OnToken(calls[i].ticket.op) == onToken ==>
      calls[i].ticket.made < |st.past|
    ensures Prompt(Filled(st, id, doc, w), calls[id := Done(calls[id].ticket)], onToken)
  {
  }

  lemma FillPrompt(s: Server, id: nat, w: World)
    requires Inv(s) && Unfailed(s) && id in s.calls && s.calls[id].Filling? && w.fills
    ensures Unfailed(Advance(s, id, w))
  {
    var done := Done(s.calls[id].ticket);
    assert InOrder(s.calls[id], s.token, s.states);
    TicketsInPast(s);
    if s.calls[id].image.TokenImage? {
      StillPrompt(s.states, s.calls, id, done, false);
      FilledPrompt(s.token, s.calls, id, true, Saved(s.calls[id].image.token), w);
    } else {
      StillPrompt(s.token, s.calls, id, done, true);
      FilledPrompt(s.states, s.calls, id, false, Saved(s.calls[id].image.states), w);
    }
  }

  lemma StepPrompt(s: Server, l: Label)
    requires Inv(s) && Unfailed(s) && Enabled(s, l) && Succeeds(s, l)
    ensures Unfailed(Apply(s, l))
  {
    if l.Step? && s.calls[l.id].Ready? {
      CommitPrompt(s, l.id, s.calls[l.id].op);
    } else if l.Step? && s.calls[l.id].Writing? {
      OpenPrompt(s, l.id, l.world);
    } else if l.Step? && s.calls[l.id].Filling? {
      FillPrompt(s, l.id, l.world);
    } else {
      var p := Apply(s, l).calls[l.id];
      StillPrompt(s.token, s.calls, l.id, p, true);
      StillPrompt(s.states, s.calls, l.id, p, false);
    }
  }

  lemma {:induction false} RunPrompt(s: Server, ls: seq<Label>)
    requires Inv(s) && Unfailed(s) && Runs(s, ls) && WritesSucceed(s, ls)
    ensures Unfailed(Run(s, ls))
    decreases |ls|
  {
    if ls != [] {
      StepInv(s, ls[0]);
      StepPrompt(s, ls[0]);
      RunPrompt(Apply(s, ls[0]), ls[1..]);
    }
  }

  /** However many requests overlap, and however: as long as no write fails, a file differs from
      memory only while some request stands between its change and the end of its write. */
  lemma FileLagsOnlyBehindPending(tokenFile: Doc<Option<Token>>, statesFile: Doc<States>, ls: seq<Label>)
    requires Runs(New(tokenFile, statesFile), ls) && WritesSucceed(New(tokenFile, statesFile), ls)
    ensures var s := Run(New(tokenFile, statesFile), ls);
      && (Load(s.token.file, None) != Now(s.token) ==> exists id :: id in s.calls && PendingOn(s.calls[id], true))
      && (Load(s.states.file, map[]) != Now(s.states) ==> exists id :: id in s.calls && PendingOn(s.calls[id], false))
  {
    NewInv(tokenFile, statesFile);
    RunInv(New(tokenFile, statesFile), ls);
    RunPrompt(New(tokenFile, statesFile), ls);
  }

  /** When no request is in between, a restart comes back with the token and the states that
      memory held; the logs are not kept. */
  lemma QuietRestart(tokenFile: Doc<Option<Token>>, statesFile: Doc<States>, ls: seq<Label>)
    requires Runs(New(tokenFile, statesFile), ls) && WritesSucceed(New(tokenFile, statesFile), ls)
    requires var s := Run(New(tokenFile, statesFile), ls); forall id :: id in s.calls ==> !Pending(s.calls[id])
    ensures var s := Run(New(tokenFile, statesFile), ls);
      var again := New(s.token.file, s.states.file);
      Now(again.token) == Now(s.token) && Now(again.states) == Now(s.states) && again.logs == map[]
  {
    FileLagsOnlyBehindPending(tokenFile, statesFile, ls);
  }

  // ---- crashes ----

  /** `v` is a value the memory held once the change numbered `made` had been made. */
  ghost predicate HeldSince<T>(past: seq<T>, made: nat, v: T) {
    exists k :: made <= k < |past| && past[k] == v
  }

  /** A crash at any moment of any run, whatever writes failed, keeps an acknowledged change exactly
      if the file is torn and the default happens to be a value held since, or it is not torn and
      was written whole since, or what it held before happens to be a value held since. */
  ghost predicate Survives<T>(st: Store<T>, default: T, made: nat) {
    if st.torn.Some? then HeldSince(st.past, made, default)
    else made <= st.kept || (st.kept < |st.past| && HeldSince(st.past, made, st.past[st.kept]))
  }

  lemma CrashExactly(tokenFile: Doc<Option<Token>>, statesFile: Doc<States>, ls: seq<Label>, id: nat)
    requires Runs(New(tokenFile, statesFile), ls)
    requires var s := Run(New(tokenFile, statesFile), ls); id in s.calls && s.calls[id].Done?
    ensures var s := Run(New(tokenFile, statesFile), ls);
      var t := s.calls[id].ticket;
      && MadeBy(t, s.token.past, s.states.past)
      && if OnToken(t.op) then
           HeldSince(s.token.past, t.made, Load(s.token.file, None)) <==> Survives(s.token, None, t.made)
         else
           HeldSince(s.states.past, t.made, Load(s.states.file, map[])) <==> Survives(s.states, map[], t.made)
  {
    NewInv(tokenFile, statesFile);
    RunInv(New(tokenFile, statesFile), ls);
    var s := Run(New(tokenFile, statesFile), ls);
    assert InOrder(s.calls[id], s.token, s.states);
  }

  /** As long as no write fails, a crash keeps an acknowledged change exactly if no other request
      has emptied the file to fill it anew, or the default is a value held since. */
  lemma AcknowledgedSurvives(tokenFile: Doc<Option<Token>>, statesFile: Doc<States>, ls: seq<Label>, id: nat)
    requires Runs(New(tokenFile, statesFile), ls) && WritesSucceed(New(tokenFile, statesFile), ls)
    requires var s := Run(New(tokenFile, statesFile), ls); id in s.calls && s.calls[id].Done?
    ensures var s := Run(New(tokenFile, statesFile), ls);
      var t := s.calls[id].ticket;
      if OnToken(t.op) then
        && (HeldSince(s.token.past, t.made, Load(s.token.file, None)) <==>
              s.token.torn == None || HeldSince(s.token.past, t.made, None))
        && (s.token.torn.Some? ==> exists i :: i in s.calls && FillingOn(s.calls[i], true))
      else
        && (HeldSince(s.states.past, t.made, Load(s.states.file, map[])) <==>
              s.states.torn == None || HeldSince(s.states.past, t.made, map[]))
        && (s.states.torn.Some? ==> exists i :: i in s.calls && FillingOn(s.calls[i], false))
  {
    CrashExactly(tokenFile, statesFile, ls, id);
    NewInv(tokenFile, statesFile);
    RunPrompt(New(tokenFile, statesFile), ls);
  }

  /** The step leaves the file of this store whole. */
  predicate WritesWhole(s: Server, l: Label, onToken: bool)
    requires Enabled(s, l)
  {
    l.Step? && Holding(s.calls[l.id], onToken) &&
      var p := s.calls[l.id];
      if p.Writing? then p.image == TokenImage(None) && l.world.opens
      else if p.image.TokenImage? then LeavesWhole(s.token, l.id, l.world) else LeavesWhole(s.states, l.id, l.world)
  }

  predicate SomeWholeWrite(s: Server, ls: seq<Label>, onToken: bool)
    requires Runs(s, ls)
    decreases |ls|
  {
    ls != [] && (WritesWhole(s, ls[0], onToken) || SomeWholeWrite(Apply(s, ls[0]), ls[1..], onToken))
  }

  function KeptOf(s: Server, onToken: bool): nat { if onToken then s.token.kept else s.states.kept }

  function LengthOf(s: Server, onToken: bool): nat { if onToken then |s.token.past| else |s.states.past| }

  /** A change that has been made gets into the file exactly when some write of its store, its own
      or that of any request, leaves the file whole afterwards. */
  lemma {:induction false} KeptByAWholeWrite(s: Server, ls: seq<Label>, onToken: bool, made: nat)
    requires Inv(s) && Runs(s, ls) && KeptOf(s, onToken) < made < LengthOf(s, onToken)
    ensures made <= KeptOf(Run(s, ls), onToken) <==> SomeWholeWrite(s, ls, onToken)
    decreases |ls|
  {
    if ls != [] {
      var s' := Apply(s, ls[0]);
      StepInv(s, ls[0]);
      StepKeeps(s, ls[0], onToken);
      if WritesWhole(s, ls[0], onToken) {
        KeptGrows(s', ls[1..], onToken);
      } else {
        KeptByAWholeWrite(s', ls[1..], onToken, made);
      }
    }
  }

  lemma StepKeeps(s: Server, l: Label, onToken: bool)
    requires Inv(s) && Enabled(s, l)
    ensures var s' := Apply(s, l);
      && LengthOf(s, onToken) <= LengthOf(s', onToken)
      && KeptOf(s', onToken) == (if WritesWhole(s, l, onToken) then LengthOf(s, onToken) - 1 else KeptOf(s, onToken))
      && KeptOf(s, onToken) <= LengthOf(s, onToken) - 1
  {
    if l.Step? {
      assert InOrder(s.calls[l.id], s.token, s.states);
    }
  }

  lemma {:induction false} KeptGrows(s: Server, ls: seq<Label>, onToken: bool)
    requires Inv(s) && Runs(s, ls)
    ensures KeptOf(s, onToken) <= KeptOf(Run(s, ls), onToken)
    decreases |ls|
  {
    if ls != [] {
      StepInv(s, ls[0]);
      StepKeeps(s, ls[0], onToken);
      KeptGrows(Apply(s, ls[0]), ls[1..], onToken);
    }
  }

  // ---- the changes form one serial history ----

  function TicketOf(p: Phase): Option<Ticket> {
    if p.Dropping? || p.Dirty? || p.Writing? || p.Filling? || p.Done? then Some(p.ticket) else None
  }

  predicate Holder(calls: map<nat, Phase>, id: nat, onToken: bool, i: int) {
    && id in calls && TicketOf(calls[id]).Some?
    && OnToken(TicketOf(calls[id]).value.op) == onToken && TicketOf(calls[id]).value.made == i
  }

  ghost predicate Made(calls: map<nat, Phase>, onToken: bool, i: int) {
    exists id :: Holder(calls, id, onToken, i)
  }

  /** Every value after the first was made by exactly one request. */
  ghost predicate Serial(calls: map<nat, Phase>, n: nat, onToken: bool) {
    && (forall i :: 1 <= i < n ==> Made(calls, onToken, i))
    && (forall i, id, id' :: Holder(calls, id, onToken, i) && Holder(calls, id', onToken, i) ==> id == id')
    && (forall id, i :: Holder(calls, id, onToken, i) ==> i < n)
  }

  lemma SameTicketSerial(calls: map<nat, Phase>, n: nat, onToken: bool, id: nat, p: Phase)
    requires Serial(calls, n, onToken)
    requires id in calls ==> TicketOf(p) == TicketOf(calls[id])
    requires id !in calls ==> TicketOf(p) == None
    ensures Serial(calls[id := p], n, onToken)
  {
    var calls' := calls[id := p];
    assert forall j, i :: Holder(calls', j, onToken, i) <==> Holder(calls, j, onToken, i);
    forall i | 1 <= i < n ensures Made(calls', onToken, i) {
      assert Made(calls, onToken, i);
    }
  }

  lemma NewTicketSerial(calls: map<nat, Phase>, n: nat, onToken: bool, id: nat, p: Phase)
    requires Serial(calls, n, onToken) && n >= 1
    requires id in calls && TicketOf(calls[id]) == None && TicketOf(p).Some?
    ensures
      var t, calls' := TicketOf(p).value, calls[id := p];
      if OnToken(t.op) != onToken then Serial(calls', n, onToken)
      else t.made == n ==> Serial(calls', n + 1, onToken)
  {
    var t, calls' := TicketOf(p).value, calls[id := p];
    assert forall j, i :: Holder(calls', j, onToken, i) <==>
      Holder(calls, j, onToken, i) || (j == id && OnToken(t.op) == onToken && i == t.made);
    forall i | 1 <= i < n ensures Made(calls', onToken, i) {
      assert Made(calls, onToken, i);
      var j :| Holder(calls, j, onToken, i);
      assert Holder(calls', j, onToken, i);
    }
    if OnToken(t.op) == onToken {
      assert Holder(calls', id, onToken, t.made);
    }
  }

  ghost predicate AllSerial(s: Server) {
    Serial(s.calls, |s.token.past|, true) && Serial(s.calls, |s.states.past|, false)
  }

  /** A ticket is issued with a change, numbered by it, and kept from then on. */
  lemma StepTickets(s: Server, l: Label)
    requires Enabled(s, l)
    ensures var s' := Apply(s, l); var p := s'.calls[l.id];
      && s'.calls == s.calls[l.id := p]
      && if l.Step? && s.calls[l.id].Ready? && TicketOf(p).Some? then
           var onToken := OnToken(TicketOf(p).value.op);
           && TicketOf(p).value.made == (if onToken then |s.token.past| else |s.states.past|)
           && |s'.token.past| == |s.token.past| + (if onToken then 1 else 0)
           && |s'.states.past| == |s.states.past| + (if onToken then 0 else 1)
         else
           && |s'.token.past| == |s.token.past| && |s'.states.past| == |s.states.past|
           && TicketOf(p) == if l.id in s.calls then TicketOf(s.calls[l.id]) else None
  {
  }

  lemma StepSerial(s: Server, l: Label)
    requires AllSerial(s) && Enabled(s, l)
    ensures AllSerial(Apply(s, l))
  {
    StepTickets(s, l);
    var p := Apply(s, l).calls[l.id];
    if l.Step? && s.calls[l.id].Ready? && TicketOf(p).Some? {
      NewTicketSerial(s.calls, |s.token.past|, true, l.id, p);
      NewTicketSerial(s.calls, |s.states.past|, false, l.id, p);
    } else {
      SameTicketSerial(s.calls, |s.token.past|, true, l.id, p);
      SameTicketSerial(s.calls, |s.states.past|, false, l.id, p);
    }
  }

  lemma {:induction false} RunSerial(s: Server, ls: seq<Label>)
    requires AllSerial(s) && Runs(s, ls)
    ensures AllSerial(Run(s, ls))
    decreases |ls|
  {
    if ls != [] {
      StepSerial(s, ls[0]);
      RunSerial(Apply(s, ls[0]), ls[1..]);
    }
  }

  /** Overlapping requests have the effect of a serial history: each later value of the states
      is the change of exactly one request, applied to the value before it. */
  lemma ChangesAreSerial(tokenFile: Doc<Option<Token>>, statesFile: Doc<States>, ls: seq<Label>, i: nat)
    requires Runs(New(tokenFile, statesFile), ls)
    requires 1 <= i < |Run(New(tokenFile, statesFile), ls).states.past|
    ensures var s := Run(New(tokenFile, statesFile), ls);
      exists id :: Holder(s.calls, id, false, i)
        && Change(TicketOf(s.calls[id]).value.op, s.states.past[i - 1]) == Some(s.states.past[i])
        && forall id' :: Holder(s.calls, id', false, i) ==> id' == id
  {
    var s0 := New(tokenFile, statesFile);
    NewInv(tokenFile, statesFile);
    RunInv(s0, ls);
    assert AllSerial(s0);
    RunSerial(s0, ls);
    var s := Run(s0, ls);
    assert Made(s.calls, false, i);
    var id :| Holder(s.calls, id, false, i);
    assert InOrder(s.calls[id], s.token, s.states);
  }

  // ---- one request at a time ----

  /** The plugin with nothing in flight. */
  datatype Memory = Memory(
    token: Option<Token>,
    states: States,
    logs: map<string, seq<string>>,
    tokenFile: Doc<Option<Token>>,
    statesFile: Doc<States>)

  /** A file after one attempt to write it, or to remove it. */
  function Written<T>(file: Doc<T>, doc: Doc<T>, w: World): Doc<T> {
    if !w.opens then file else if doc.Missing? || w.fills then doc else Garbage
  }

  /** A change made and written out on its own; the reply does not tell how the write went. */
  function Perform(m: Memory, op: Op, w: World): (Memory, Reply) {
    if OnToken(op) then
      (m.(token := op.token, tokenFile := Written(m.tokenFile, TokenDoc(op.token), w)), Reply(200, None))
    else
      match Change(op, m.states)
      case None => (m, Reply(404, None))
      case Some(states) =>
        (m.(states := states, statesFile := Written(m.statesFile, Saved(states), w),
            logs := if op.Remove? then m.logs - {op.vaultId} else m.logs),
         Reply(200, Reported(op, states)))
  }

  /** Setting up needs a token, a registered vault and a CLI that runs. */
  function CheckedSetup(m: Memory, op: Op, w: World): (Memory, Reply) {
    if m.token.None? then (m, Reply(401, None))
    else if !w.registered then (m, Reply(404, None))
    else if !w.cliRuns then (m, Reply(500, None))
    else Perform(m, op, w)
  }

  /** A request served on its own. */
  function Alone(m: Memory, req: Request, w: World): (Memory, Reply) {
    match Validate(req)
    case Err(code) => (m, Reply(code, None))
    case Ok(op) => if req.Setup? then CheckedSetup(m, op, w) else Perform(m, op, w)
  }

  class HeadlessSync {
    var token: Option<Token>
    var states: States
    var logs: map<string, seq<string>>
    var tokenFile: Doc<Option<Token>>
    var statesFile: Doc<States>

    function View(): Memory
      reads this
    {
      Memory(token, states, logs, tokenFile, statesFile)
    }

    constructor New(tokenFile: Doc<Option<Token>>, statesFile: Doc<States>)
      ensures View() == Memory(Load(tokenFile, None), Load(statesFile, map[]), map[], tokenFile, statesFile)
    {
      this.tokenFile, this.statesFile := tokenFile, statesFile;
      token := Load(tokenFile, None);
      states := Load(statesFile, map[]);
      logs := map[];
    }

    method PersistToken(w: World)
      modifies this`tokenFile
      ensures tokenFile == Written(old(tokenFile), TokenDoc(token), w)
    {
      match token {
        case Some(info) =>
          if w.opens {
            tokenFile := Garbage;
            if w.fills {
              tokenFile := Saved(Some(info));
            }
          }
        case None =>
          if w.opens {
            tokenFile := Missing;
          }
      }
    }

    method PersistStates(w: World)
      modifies this`statesFile
      ensures statesFile == Written(old(statesFile), Saved(states), w)
    {
      if w.opens {
        statesFile := Garbage;
        if w.fills {
          statesFile := Saved(states);
        }
      }
    }

    method Login(body: Request, w: World) returns (reply: Reply)
      requires body.Login?
      modifies this
      ensures (View(), reply) == Alone(old(View()), body, w)
    {
      if body.token.None? || body.token.value == "" {
        return Reply(400, None);
      }
      token := Some(Token(body.token.value, body.email, body.name));
      PersistToken(w);
      reply := Reply(200, None);
    }

    method Logout(w: World) returns (reply: Reply)
      modifies this
      ensures (View(), reply) == Alone(old(View()), Request.Logout, w)
    {
      token := None;
      PersistToken(w);
      reply := Reply(200, None);
    }

    method Setup(b: SetupBody, w: World) returns (reply: Reply)
      modifies this
      ensures (View(), reply) == Alone(old(View()), Request.Setup(b), w)
    {
      if b.vaultId.None? || b.remoteVault.None? {
        return Reply(400, None);
      }
      if token.None? {
        return Reply(401, None);
      }
      if !w.registered {
        return Reply(404, None);
      }
      if !w.cliRuns {
        return Reply(500, None);
      }
      var state := SyncState(
        b.vaultId.value, b.remoteVault.value, b.remoteVaultName, "stopped", None, None,
        SyncConfig(GetOr(b.mode, "bidirectional"), GetOr(b.deviceName, "ignis-headless")));
      states := states[b.vaultId.value := state];
      PersistStates(w);
      reply := Reply(200, Some(state));
    }

    method SetStatus(vaultId: string, status: string) returns (r: Option<SyncState>)
      modifies this`states
      ensures match Change(Op.SetStatus(vaultId, status), old(states))
              case None => r == None && states == old(states)
              case Some(changed) => states == changed && r == Reported(Op.SetStatus(vaultId, status), changed)
    {
      if vaultId !in states {
        return None;
      }
      var state := states[vaultId].(status := status);
      if status == "running" {
        state := state.(error := None);
      }
      states := states[vaultId := state];
      r := Some(state);
    }

    method Start(vaultId: Option<string>, w: World) returns (reply: Reply)
      modifies this
      ensures (View(), reply) == Alone(old(View()), Request.Start(vaultId), w)
    {
      if vaultId.None? {
        return Reply(400, None);
      }
      var state := SetStatus(vaultId.value, "running");
      if state.None? {
        return Reply(404, None);
      }
      PersistStates(w);
      reply := Reply(200, state);
    }

    method Stop(vaultId: Option<string>, w: World) returns (reply: Reply)
      modifies this
      ensures (View(), reply) == Alone(old(View()), Request.Stop(vaultId), w)
    {
      if vaultId.None? {
        return Reply(400, None);
      }
      var state := SetStatus(vaultId.value, "stopped");
      if state.None? {
        return Reply(404, None);
      }
      PersistStates(w);
      reply := Reply(200, state);
    }

    method Unlink(vaultId: Option<string>, w: World) returns (reply: Reply)
      modifies this
      ensures (View(), reply) == Alone(old(View()), Request.Unlink(vaultId), w)
    {
      if vaultId.None? {
        return Reply(400, None);
      }
      states := states - {vaultId.value};
      logs := logs - {vaultId.value};
      PersistStates(w);
      reply := Reply(200, None);
    }
  }

  // ---- a request served on its own is one run of the machine ----

  function Snapshot(s: Server): Memory {
    Memory(Now(s.token), Now(s.states), s.logs, s.token.file, s.states.file)
  }

  predicate Answered(p: Phase, reply: Reply) {
    (p.Refused? && reply == Reply(p.code, None)) || (p.Done? && reply == Reply(200, p.ticket.state))
  }

  /** From `s` to `s'`, request `id` has been served with this result, and no other was touched. */
  predicate Serves(s: Server, s': Server, id: nat, result: (Memory, Reply)) {
    && id in s'.calls && s'.calls == s.calls[id := s'.calls[id]]
    && Snapshot(s') == result.0 && Answered(s'.calls[id], result.1)
  }

  function Rank(p: Phase): nat {
    match p
    case Begin(_) => 9
    case Authenticate(_) => 8
    case Lookup(_) => 7
    case RunCli(_) => 6
    case Ready(_) => 5
    case Dropping(_) => 4
    case Dirty(_) => 3
    case Writing(_, _) => 2
    case Filling(_, _) => 1
    case _ => 0
  }

  /** The steps one request still has to take, taken without a break. */
  function Finish(s: Server, id: nat, w: World): (r: Server)
    requires id in s.calls
    ensures id in r.calls
    decreases Rank(s.calls[id])
  {
    if Rank(s.calls[id]) == 0 then s else Finish(Advance(s, id, w), id, w)
  }

  predicate OthersIdle(s: Server, id: nat) {
    forall i :: i in s.calls && i != id ==> !s.calls[i].Writing? && !s.calls[i].Filling?
  }

  lemma {:induction false} FinishIsARun(s: Server, id: nat, w: World) returns (ls: seq<Label>)
    requires id in s.calls && OthersIdle(s, id)
    ensures Runs(s, ls) && Run(s, ls) == Finish(s, id, w)
    decreases Rank(s.calls[id])
  {
    if Rank(s.calls[id]) == 0 {
      ls := [];
    } else {
      var rest := FinishIsARun(Advance(s, id, w), id, w);
      ls := [Step(id, w)] + rest;
      assert ls[1..] == rest;
    }
  }

  lemma FinishDirty(s: Server, id: nat, w: World, t: Ticket)
    requires id in s.calls && s.calls[id] == Dirty(t)
    ensures var s' := Finish(s, id, w);
      && s'.calls == s.calls[id := Done(t)]
      && Snapshot(s') ==
         if OnToken(t.op) then Snapshot(s).(tokenFile := Written(s.token.file, TokenDoc(Now(s.token)), w))
         else Snapshot(s).(statesFile := Written(s.states.file, Saved(Now(s.states)), w))
  {
    var s1 := Advance(s, id, w);
    assert Finish(s, id, w) == Finish(s1, id, w);
    FinishWriting(s1, id, w);
  }

  lemma FinishWriting(s: Server, id: nat, w: World)
    requires id in s.calls && s.calls[id].Writing?
    ensures var s1 := Advance(s, id, w);
      Finish(s, id, w) == if s1.calls[id].Filling? then Advance(s1, id, w) else s1
  {
    var s1 := Advance(s, id, w);
    if s1.calls[id].Filling? {
      assert Finish(s1, id, w) == Advance(s1, id, w);
    }
  }

  lemma FinishReady(s: Server, id: nat, w: World, op: Op)
    requires id in s.calls && s.calls[id] == Ready(op)
    ensures Serves(s, Finish(s, id, w), id, Perform(Snapshot(s), op, w))
  {
    var s1 := Advance(s, id, w);
    assert Finish(s, id, w) == Finish(s1, id, w);
    if s1.calls[id].Dropping? {
      var s2 := Advance(s1, id, w);
      assert Finish(s1, id, w) == Finish(s2, id, w);
      FinishDirty(s2, id, w, s2.calls[id].ticket);
    } else if s1.calls[id].Dirty? {
      FinishDirty(s1, id, w, s1.calls[id].ticket);
    }
  }

  /** The checks of a setup, one step each. */
  lemma FinishChecks(s: Server, id: nat, w: World, op: Op)
    requires id in s.calls && s.calls[id] == Authenticate(op)
    ensures
      var code := if Now(s.token).None? then 401 else if !w.registered then 404 else if !w.cliRuns then 500 else 0;
      Finish(s, id, w) == if code != 0 then s.(calls := s.calls[id := Refused(code)])
                          else Finish(s.(calls := s.calls[id := Ready(op)]), id, w)
  {
    var s1 := Advance(s, id, w);
    if s1.calls[id].Lookup? {
      var s2 := Advance(s1, id, w);
      if s2.calls[id].RunCli? {
        var s3 := Advance(s2, id, w);
        assert s3 == s.(calls := s.calls[id := if w.cliRuns then Ready(op) else Refused(500)]);
        assert Finish(s1, id, w) == Finish(s2, id, w) == Finish(s3, id, w);
      } else {
        assert s2 == s.(calls := s.calls[id := Refused(404)]);
        assert Finish(s1, id, w) == Finish(s2, id, w) == s2;
      }
    }
  }

  lemma FinishSetup(s: Server, id: nat, w: World, op: Op)
    ensures Serves(s, Finish(s.(calls := s.calls[id := Authenticate(op)]), id, w), id, CheckedSetup(Snapshot(s), op, w))
  {
    var ready := s.(calls := s.calls[id := Ready(op)]);
    var checked := s.(calls := s.calls[id := Authenticate(op)]);
    FinishChecks(checked, id, w, op);
    assert checked.(calls := checked.calls[id := Ready(op)]) == ready;
    FinishOp(s, id, w, op);
  }

  lemma FinishOp(s: Server, id: nat, w: World, op: Op)
    ensures Serves(s, Finish(s.(calls := s.calls[id := Ready(op)]), id, w), id, Perform(Snapshot(s), op, w))
  {
    var ready := s.(calls := s.calls[id := Ready(op)]);
    FinishReady(ready, id, w, op);
    assert Snapshot(ready) == Snapshot(s);
  }

  lemma FinishArrived(s: Server, id: nat, req: Request, w: World)
    requires id !in s.calls
    ensures Serves(s, Finish(Apply(s, Arrive(id, req)), id, w), id, Alone(Snapshot(s), req, w))
  {
    var s0 := Apply(s, Arrive(id, req));
    var s1 := Advance(s0, id, w);
    assert Finish(s0, id, w) == Finish(s1, id, w);
    assert s1 == s.(calls := s.calls[id := s1.calls[id]]);
    if Validate(req).Ok? {
      if req.Setup? {
        FinishSetup(s, id, w, Validate(req).value);
      } else {
        FinishOp(s, id, w, Validate(req).value);
      }
    }
  }

  /** With no other request writing, some run of the machine serves a request without interruption,
      and exactly as the methods above do. */
  lemma AloneOnTheMachine(s: Server, id: nat, req: Request, w: World) returns (ls: seq<Label>)
    requires id !in s.calls && OthersIdle(s, id)
    ensures Runs(s, ls) && Serves(s, Run(s, ls), id, Alone(Snapshot(s), req, w))
  {
    var rest := FinishIsARun(Apply(s, Arrive(id, req)), id, w);
    ls := [Arrive(id, req)] + rest;
    assert ls[1..] == rest;
    FinishArrived(s, id, req, w);
  }

  // ---- what a crash can lose ----

  lemma {:induction false} RunConcat(s: Server, a: seq<Label>, b: seq<Label>)
    requires Runs(s, a) && Runs(Run(s, a), b)
    ensures Runs(s, a + b) && Run(s, a + b) == Run(Run(s, a), b)
    decreases |a|
  {
    if a == [] {
      assert a + b == b;
    } else {
      assert (a + b)[1..] == a[1..] + b;
      RunConcat(Apply(s, a[0]), a[1..], b);
    }
  }

  lemma RunBy(s: Server, l: Label, s': Server, ls: seq<Label>, end: Server)
    requires Enabled(s, l) && Apply(s, l) == s' && Runs(s', ls) && Run(s', ls) == end
    ensures Runs(s, [l] + ls) && Run(s, [l] + ls) == end
  {
    assert ([l] + ls)[1..] == ls;
  }

  /** A login up to the point where it has emptied the token file. */
  function LoggingIn(s: Server, id: nat, token: Token): Server {
    var ticket := Ticket(SetToken(Some(token)), |s.token.past|, None);
    s.(token := Store(s.token.past + [Some(token)], Garbage, s.token.kept, Some(id)),
       calls := s.calls[id := Filling(ticket, TokenImage(Some(token)))])
  }

  lemma UntilFilling(s: Server, id: nat, token: Token, w: World) returns (ls: seq<Label>)
    requires id !in s.calls && !Locked(s, true) && token.token != "" && w.opens
    ensures Runs(s, ls) && Run(s, ls) == LoggingIn(s, id, token)
  {
    var req := Login(Some(token.token), token.email, token.name);
    var s1 := s.(calls := s.calls[id := Begin(req)]);
    var s2 := s.(calls := s.calls[id := Ready(SetToken(Some(token)))]);
    var rest := FromReady(s, id, token, w);
    var end := LoggingIn(s, id, token);
    RunBy(s1, Step(id, w), s2, rest, end);
    RunBy(s, Arrive(id, req), s1, [Step(id, w)] + rest, end);
    ls := [Arrive(id, req)] + ([Step(id, w)] + rest);
  }

  lemma FromReady(s: Server, id: nat, token: Token, w: World) returns (ls: seq<Label>)
    requires !Locked(s, true) && id !in s.calls && w.opens
    ensures var ready := s.(calls := s.calls[id := Ready(SetToken(Some(token)))]);
      Runs(ready, ls) && Run(ready, ls) == LoggingIn(s, id, token)
  {
    var op := SetToken(Some(token));
    var ticket := Ticket(op, |s.token.past|, None);
    var s2 := s.(calls := s.calls[id := Ready(op)]);
    var s3 := s.(token := s.token.(past := s.token.past + [Some(token)]), calls := s.calls[id := Dirty(ticket)]);
    var s4 := s3.(calls := s.calls[id := Writing(ticket, TokenImage(Some(token)))]);
    var s5 := LoggingIn(s, id, token);
    assert Runs(s5, []) && Run(s5, []) == s5;
    RunBy(s4, Step(id, w), s5, [], s5);
    RunBy(s3, Step(id, w), s4, [Step(id, w)] + [], s5);
    StillUnlocked(s, id, Ready(op));
    RunBy(s2, Step(id, w), s3, [Step(id, w)] + ([Step(id, w)] + []), s5);
    ls := [Step(id, w)] + ([Step(id, w)] + ([Step(id, w)] + []));
  }

  lemma StillUnlocked(s: Server, id: nat, p: Phase)
    requires !Locked(s, true) && !p.Writing? && !p.Filling?
    ensures !Locked(s.(calls := s.calls[id := p]), true)
  {
    var calls' := s.calls[id := p];
    forall i | i in calls' ensures !Holding(calls'[i], true) {
      assert i == id || i in s.calls;
    }
  }

  /** No write fails: one login is done and answered, a second one has emptied the file to write
      it anew. A crash at this moment comes back logged out, although nobody ever logged out. */
  lemma LoginLostInACrash(first: Token, second: Token) returns (ls: seq<Label>)
    requires first.token != "" && second.token != ""
    ensures var s0 := New(Missing, Missing);
      && Runs(s0, ls) && var s := Run(s0, ls);
      && 1 in s.calls && s.calls[1].Done? && OnToken(s.calls[1].ticket.op)
      && 2 in s.calls && FillingOn(s.calls[2], true)
      && s.token.past == [None, Some(first), Some(second)]
      && Load(s.token.file, None) == None && !HeldSince(s.token.past, s.calls[1].ticket.made, None)
  {
    var fine := World(true, true, true, true, true);
    var s0 := New(Missing, Missing);
    var s1 := LoggingIn(s0, 1, first);
    var s2 := Apply(s1, Step(1, fine));
    var s3 := LoggingIn(s2, 2, second);
    var a := UntilFilling(s0, 1, first, fine);
    var b := UntilFilling(s2, 2, second, fine);
    RunBy(s1, Step(1, fine), s2, b, s3);
    RunConcat(s0, a, [Step(1, fine)] + b);
    ls := a + ([Step(1, fine)] + b);
  }
}
