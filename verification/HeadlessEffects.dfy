/** What each request does to the headless-sync plugin, told from the body of the request alone:
    for one request on its own, for each step of the machine, and over whole runs. */
module HeadlessEffects {
  import opened Wrappers
  import opened HeadlessSync

  function At(states: States, v: string): Option<SyncState> {
    if v in states then Some(states[v]) else None
  }

  /** Every vault but `v` is as it was. */
  ghost predicate OnlyAt(before: States, after: States, v: string) {
    forall k :: k != v ==> At(after, k) == At(before, k)
  }

  /** A file after one attempt to write `v` to it: a restart loads `v` if the attempt went well,
      nothing if it broke off, and what it would have loaded before if it never began. */
  ghost predicate WrittenOut<T>(before: Doc<T>, after: Doc<T>, v: T, default: T, w: World) {
    && (!w.opens ==> after == before)
    && (w.opens && w.fills ==> Load(after, default) == v)
    && (w.opens && !w.fills ==> Load(after, default) == default)
  }

  ghost predicate SameToken(m: Memory, m': Memory) { m'.token == m.token && m'.tokenFile == m.tokenFile }

  ghost predicate SameStates(m: Memory, m': Memory) {
    m'.states == m.states && m'.statesFile == m.statesFile && m'.logs == m.logs
  }

  // ---- one request at a time ----

  /** A login needs a token that is not empty; it becomes the token in memory, with the e-mail
      address and the name that came with it. No vault is touched. */
  lemma LoginMeans(m: Memory, token: Option<string>, email: Option<string>, name: Option<string>, w: World)
    ensures var (m', reply) := Alone(m, Login(token, email, name), w);
      && SameStates(m, m') && reply.state == None
      && if token == None || token == Some("") then reply.code == 400 && SameToken(m, m')
         else
           && reply.code == 200 && m'.token.Some?
           && Some(m'.token.value.token) == token && m'.token.value.email == email && m'.token.value.name == name
           && WrittenOut(m.tokenFile, m'.tokenFile, m'.token, None, w)
  {
  }

  lemma LogoutMeans(m: Memory, w: World)
    ensures var (m', reply) := Alone(m, Logout, w);
      && SameStates(m, m') && reply == Reply(200, None) && m'.token == None
      && m'.tokenFile == if w.opens then Missing else m.tokenFile
  {
  }

  /** A vault just set up: stopped, nothing synced, no error, and what the body says of the rest. */
  predicate FreshFrom(b: SetupBody, st: SyncState) {
    && Some(st.vaultId) == b.vaultId && Some(st.remoteVault) == b.remoteVault
    && st.remoteVaultName == b.remoteVaultName
    && st.status == "stopped" && st.lastSync == None && st.error == None
    && (if b.mode.Some? then b.mode == Some(st.config.mode) else st.config.mode == "bidirectional")
    && (if b.deviceName.Some? then b.deviceName == Some(st.config.deviceName)
        else st.config.deviceName == "ignis-headless")
  }

  /** A setup with both ids, by someone logged in, for a registered vault and with a CLI that runs
      leaves one vault freshly set up. Any other setup is refused and leaves no trace. */
  lemma SetupMeans(m: Memory, b: SetupBody, w: World)
    ensures var (m', reply) := Alone(m, Setup(b), w);
      && SameToken(m, m') && m'.logs == m.logs
      && (reply.code == 400 <==> b.vaultId == None || b.remoteVault == None)
      && (reply.code == 401 <==> b.vaultId.Some? && b.remoteVault.Some? && m.token == None)
      && (reply.code == 404 <==> b.vaultId.Some? && b.remoteVault.Some? && m.token.Some? && !w.registered)
      && (reply.code == 500 <==>
            b.vaultId.Some? && b.remoteVault.Some? && m.token.Some? && w.registered && !w.cliRuns)
      && if reply.code != 200 then SameStates(m, m') && reply.state == None
         else
           && b.vaultId.Some? && OnlyAt(m.states, m'.states, b.vaultId.value)
           && At(m'.states, b.vaultId.value) == reply.state && reply.state.Some?
           && WrittenOut(m.statesFile, m'.statesFile, m'.states, map[], w)
           && FreshFrom(b, reply.state.value)
  {
  }

  /** `before` and `after` differ in the status, and in the error if the vault is now running. */
  predicate NowHas(before: SyncState, after: SyncState, status: string) {
    && after.status == status && after.error == (if status == "running" then None else before.error)
    && after.vaultId == before.vaultId && after.remoteVault == before.remoteVault
    && after.remoteVaultName == before.remoteVaultName
    && after.lastSync == before.lastSync && after.config == before.config
  }

  /** What a start or a stop comes to. */
  ghost predicate StatusSet(m: Memory, m': Memory, v: Option<string>, status: string, reply: Reply, w: World) {
    && SameToken(m, m') && m'.logs == m.logs
    && (reply.code == 400 <==> v == None) && (reply.code == 404 <==> v.Some? && v.value !in m.states)
    && if reply.code != 200 then SameStates(m, m') && reply.state == None
       else
         && v.Some? && v.value in m.states && v.value in m'.states
         && OnlyAt(m.states, m'.states, v.value)
         && NowHas(m.states[v.value], m'.states[v.value], status)
         && reply.state == Some(m'.states[v.value])
         && WrittenOut(m.statesFile, m'.statesFile, m'.states, map[], w)
  }

  lemma StartStopMean(m: Memory, v: Option<string>, w: World)
    ensures var (m', reply) := Alone(m, Start(v), w); StatusSet(m, m', v, "running", reply, w)
    ensures var (m', reply) := Alone(m, Stop(v), w); StatusSet(m, m', v, "stopped", reply, w)
  {
  }

  /** An unlink takes away the state and the log of the vault it names, and of no other. */
  lemma UnlinkMeans(m: Memory, v: Option<string>, w: World)
    ensures var (m', reply) := Alone(m, Unlink(v), w);
      && SameToken(m, m') && reply.state == None
      && if v == None then reply.code == 400 && SameStates(m, m')
         else
           && reply.code == 200
           && (forall k :: k in m'.states <==> k in m.states && k != v.value)
           && (forall k :: k in m'.states ==> m'.states[k] == m.states[k])
           && (forall k :: k in m'.logs <==> k in m.logs && k != v.value)
           && (forall k :: k in m'.logs ==> m'.logs[k] == m.logs[k])
           && WrittenOut(m.statesFile, m'.statesFile, m'.states, map[], w)
  {
  }

  // ---- steps of the machine ----

  /** `after` is what the change makes of `before`, vault by vault. */
  ghost predicate Makes(op: Op, before: States, after: States) {
    match op
    case SetToken(_) => after == before
    case Insert(st) => OnlyAt(before, after, st.vaultId) && At(after, st.vaultId) == Some(st)
    case SetStatus(v, status) =>
      OnlyAt(before, after, v) && v in before && v in after && NowHas(before[v], after[v], status)
    case Remove(v) => OnlyAt(before, after, v) && v !in after
  }

  /** A step of the machine changes the token or the states only where a request makes its change,
      and then exactly as it asks. A status for a vault that is not set up is refused with 404. */
  lemma StepMakes(s: Server, l: Label)
    requires Enabled(s, l)
    ensures var s' := Apply(s, l);
      if l.Step? && s.calls[l.id].Ready? then
        var op := s.calls[l.id].op;
        if op.SetStatus? && op.vaultId !in Now(s.states) then
          Now(s'.states) == Now(s.states) && Now(s'.token) == Now(s.token) && s'.calls[l.id] == Refused(404)
        else
          && Makes(op, Now(s.states), Now(s'.states))
          && Now(s'.token) == (if op.SetToken? then op.token else Now(s.token))
      else
        Now(s'.states) == Now(s.states) && Now(s'.token) == Now(s.token)
  {
  }

  /** The change is the one the request asks for. */
  ghost predicate Asks(req: Request, op: Op) {
    match req
    case Login(token, email, name) =>
      && op.SetToken? && op.token.Some? && op.token.value.token != "" && Some(op.token.value.token) == token
      && op.token.value.email == email && op.token.value.name == name
    case Logout => op.SetToken? && op.token == None
    case Setup(b) => op.Insert? && FreshFrom(b, op.state)
    case Start(v) => op.SetStatus? && Some(op.vaultId) == v && op.status == "running"
    case Stop(v) => op.SetStatus? && Some(op.vaultId) == v && op.status == "stopped"
    case Unlink(v) => op.Remove? && Some(op.vaultId) == v
  }

  /** Whatever change this call makes or has made is the one the request asks for. */
  ghost predicate Serving(p: Phase, req: Request) {
    match p
    case Begin(r) => r == req
    case Authenticate(op) => Asks(req, op)
    case Lookup(op) => Asks(req, op)
    case RunCli(op) => Asks(req, op)
    case Ready(op) => Asks(req, op)
    case Refused(_) => true
    case _ => Asks(req, p.ticket.op)
  }

  ghost predicate AllServing(s: Server, seen: set<Label>) {
    forall id :: id in s.calls ==> exists req :: Arrive(id, req) in seen && Serving(s.calls[id], req)
  }

  lemma ServingOn(s: Server, id: nat, w: World, req: Request)
    requires Enabled(s, Step(id, w)) && Serving(s.calls[id], req)
    ensures var s' := Advance(s, id, w); s'.calls == s.calls[id := s'.calls[id]] && Serving(s'.calls[id], req)
  {
    if s.calls[id].Begin? {
      ValidateAsks(req);
    } else {
      ServingStill(s, id, w, req);
    }
  }

  lemma ValidateAsks(req: Request)
    ensures Validate(req).Ok? ==> Asks(req, Validate(req).value)
  {
  }

  lemma ServingStill(s: Server, id: nat, w: World, req: Request)
    requires Enabled(s, Step(id, w)) && !s.calls[id].Begin? && Serving(s.calls[id], req)
    ensures var s' := Advance(s, id, w); s'.calls == s.calls[id := s'.calls[id]] && Serving(s'.calls[id], req)
  {
  }

  lemma StepServing(s: Server, seen: set<Label>, l: Label)
    requires Enabled(s, l) && AllServing(s, seen)
    ensures AllServing(Apply(s, l), seen + {l})
  {
    match l
    case Arrive(id, req) =>
      assert Serving(Apply(s, l).calls[id], req);
      forall i | i in s.calls ensures exists r :: Arrive(i, r) in seen + {l} && Serving(s.calls[i], r) {
        var r :| Arrive(i, r) in seen && Serving(s.calls[i], r);
        assert Arrive(i, r) in seen + {l};
      }
    case Step(id, w) =>
      var req :| Arrive(id, req) in seen && Serving(s.calls[id], req);
      ServingOn(s, id, w, req);
      forall i | i in Apply(s, l).calls
        ensures exists r :: Arrive(i, r) in seen + {l} && Serving(Apply(s, l).calls[i], r)
      {
        var r :| Arrive(i, r) in seen && Serving(s.calls[i], r);
        assert Arrive(i, if i == id then req else r) in seen + {l};
      }
  }

  lemma {:induction false} RunServing(s: Server, seen: set<Label>, ls: seq<Label>)
    requires Runs(s, ls) && AllServing(s, seen)
    ensures AllServing(Run(s, ls), seen + set l | l in ls)
    decreases |ls|
  {
    if ls != [] {
      StepServing(s, seen, ls[0]);
      RunServing(Apply(s, ls[0]), seen + {ls[0]}, ls[1..]);
      assert seen + (set l | l in ls) == (seen + {ls[0]}) + set l | l in ls[1..];
    } else {
      assert seen + (set l | l in ls) == seen;
    }
  }

  /** The i-th change of the states is what some request that arrived in the run asked for. */
  ghost predicate AskedFor(s: Server, ls: seq<Label>, i: nat)
    requires 1 <= i < |s.states.past|
  {
    exists id, req :: Arrive(id, req) in ls && Holder(s.calls, id, false, i)
      && var op := TicketOf(s.calls[id]).value.op;
      Asks(req, op) && Makes(op, s.states.past[i - 1], s.states.past[i])
  }

  /** The serial history of the states, change by change and vault by vault: each change is what
      some request that arrived asked for, and touches no vault but the one it names. */
  lemma HistoryMakes(tokenFile: Doc<Option<Token>>, statesFile: Doc<States>, ls: seq<Label>, i: nat)
    requires Runs(New(tokenFile, statesFile), ls)
    requires 1 <= i < |Run(New(tokenFile, statesFile), ls).states.past|
    ensures AskedFor(Run(New(tokenFile, statesFile), ls), ls, i)
  {
    ChangesAreSerial(tokenFile, statesFile, ls, i);
    RunServing(New(tokenFile, statesFile), {}, ls);
    var s := Run(New(tokenFile, statesFile), ls);
    var id :| Holder(s.calls, id, false, i)
      && Change(TicketOf(s.calls[id]).value.op, s.states.past[i - 1]) == Some(s.states.past[i]);
    var op := TicketOf(s.calls[id]).value.op;
    ChangeMakes(op, s.states.past[i - 1]);
    var req :| Arrive(id, req) in ({} + set l | l in ls) && Serving(s.calls[id], req);
    assert Arrive(id, req) in ls && Asks(req, op);
  }

  lemma ChangeMakes(op: Op, before: States)
    ensures Change(op, before).Some? ==> Makes(op, before, Change(op, before).value)
  {
  }

  // ---- over whole runs ----

  /** The request names the vault. */
  predicate Names(req: Request, v: string) {
    match req
    case Setup(b) => b.vaultId == Some(v)
    case Start(id) => id == Some(v)
    case Stop(id) => id == Some(v)
    case Unlink(id) => id == Some(v)
    case _ => false
  }

  predicate About(op: Op, v: string) {
    match op
    case SetToken(_) => false
    case Insert(st) => st.vaultId == v
    case SetStatus(id, _) => id == v
    case Remove(id) => id == v
  }

  /** The change this call is still to make, if it gets that far, is about the vault. */
  predicate StillAbout(p: Phase, v: string) {
    match p
    case Begin(req) => Names(req, v)
    case Authenticate(op) => About(op, v)
    case Lookup(op) => About(op, v)
    case RunCli(op) => About(op, v)
    case Ready(op) => About(op, v)
    case Dropping(t) => About(t.op, v)
    case _ => false
  }

  predicate NoneAbout(s: Server, v: string) {
    forall id :: id in s.calls ==> !StillAbout(s.calls[id], v)
  }

  lemma StepApart(s: Server, l: Label, v: string)
    requires Enabled(s, l) && NoneAbout(s, v) && (l.Arrive? ==> !Names(l.req, v))
    ensures var s' := Apply(s, l);
      && NoneAbout(s', v) && At(Now(s'.states), v) == At(Now(s.states), v)
      && (v in s'.logs <==> v in s.logs) && (v in s.logs ==> s'.logs[v] == s.logs[v])
  {
    StepMakes(s, l);
    StepPhase(s, l, v);
  }

  lemma StepPhase(s: Server, l: Label, v: string)
    requires Enabled(s, l) && (l.Arrive? ==> !Names(l.req, v))
    requires l.Step? ==> !StillAbout(s.calls[l.id], v)
    ensures var s' := Apply(s, l);
      && s'.calls == s.calls[l.id := s'.calls[l.id]] && !StillAbout(s'.calls[l.id], v)
      && (v in s'.logs <==> v in s.logs) && (v in s.logs ==> s'.logs[v] == s.logs[v])
  {
  }

  /** However requests overlap, a vault that none of them names keeps its state and its log. */
  lemma {:induction false} UnnamedVaultsStay(s: Server, ls: seq<Label>, v: string)
    requires Runs(s, ls) && NoneAbout(s, v)
    requires forall i :: 0 <= i < |ls| && ls[i].Arrive? ==> !Names(ls[i].req, v)
    ensures var end := Run(s, ls);
      && At(Now(end.states), v) == At(Now(s.states), v)
      && (v in end.logs <==> v in s.logs) && (v in s.logs ==> end.logs[v] == s.logs[v])
    decreases |ls|
  {
    if ls != [] {
      var s' := Apply(s, ls[0]);
      StepApart(s, ls[0], v);
      UnnamedVaultsStay(s', ls[1..], v);
    }
  }
}
