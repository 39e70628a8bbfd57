/** The `/ws` endpoint: one client of the vault's event log and of the plugin channels. */
module Sockets {
  import opened Wrappers
  import opened Sequences
  import opened JsonValues
  import opened Vault
  import opened Index
  import opened IndexSystem

  const CAPACITY: nat := 1024

  datatype PluginMsg = PluginMsg(channel: string, vault: string, json: string)

  /** A broadcast channel as one receiver sees it: everything ever sent, and how far it has read.
      Only the newest CAPACITY entries can still be read. */
  datatype Ring<T> = Ring(log: seq<T>, next: nat, gone: bool)

  datatype Received<+T> = Got(value: T) | Lagged(missed: nat) | Closed

  predicate InStep<T>(r: Ring<T>) { r.next <= |r.log| }

  predicate Behind<T>(r: Ring<T>) { |r.log| - r.next > CAPACITY }

  /** What `recv` yields now; nothing while the receiver has to wait. */
  function Recv<T>(r: Ring<T>): Option<Received<T>>
    requires InStep(r)
  {
    if Behind(r) then Some(Lagged(|r.log| - CAPACITY - r.next))
    else if r.next < |r.log| then Some(Got(r.log[r.next]))
    else if r.gone then Some(Closed)
    else None
  }

  function AfterRecv<T>(r: Ring<T>): (r': Ring<T>)
    requires InStep(r)
    ensures InStep(r') && r.next <= r'.next && r'.log == r.log
  {
    if Behind(r) then r.(next := |r.log| - CAPACITY)
    else if r.next < |r.log| then r.(next := r.next + 1)
    else r
  }

  datatype Incoming = Text(parsed: Option<Json>) | OtherFrame | CloseFrame | Failure | Ended

  /** What one round of the loop was woken by, and whether a send made in it goes through. */
  datatype Turn =
    | FileTurn(event: Received<Event>, sends: bool)
    | PluginTurn(msg: Received<PluginMsg>, sends: bool)
    | ClientTurn(incoming: Incoming)
    | Beat(sends: bool)

  datatype Frame = EventFrame(event: Event) | PluginFrame(json: string) | Ping

  datatype Conn = Conn(channels: set<string>, sent: seq<Frame>, open: bool)

  datatype Control = Subscribe(channel: string) | Unsubscribe(channel: string) | Unknown

  function ControlOf(parsed: Option<Json>): Control {
    if parsed.None? then Unknown
    else
      var kind, channel := Member(parsed.value, "type"), Member(parsed.value, "channel");
      if !channel.Str? then Unknown
      else if kind == Str("subscribe-channel") then Subscribe(channel.s)
      else if kind == Str("unsubscribe-channel") then Unsubscribe(channel.s)
      else Unknown
  }

  function Controlled(channels: set<string>, c: Control): set<string> {
    match c
    case Subscribe(channel) => channels + {channel}
    case Unsubscribe(channel) => channels - {channel}
    case Unknown => channels
  }

  function Sending(c: Conn, f: Frame, sends: bool): Conn {
    if sends then c.(sent := c.sent + [f]) else c.(open := false)
  }

  predicate Matches(vault: string, channels: set<string>, m: PluginMsg) {
    m.vault == vault && m.channel in channels
  }

  function Handle(vault: string, c: Conn, t: Turn): Conn {
    match t
    case FileTurn(Got(e), sends) => Sending(c, EventFrame(e), sends)
    case FileTurn(Lagged(_), _) => c
    case FileTurn(Closed, _) => c.(open := false)
    case PluginTurn(Got(m), sends) =>
      if Matches(vault, c.channels, m) then Sending(c, PluginFrame(m.json), sends) else c
    case PluginTurn(_, _) => c
    case ClientTurn(Text(parsed)) => c.(channels := Controlled(c.channels, ControlOf(parsed)))
    case ClientTurn(OtherFrame) => c
    case ClientTurn(_) => c.(open := false)
    case Beat(sends) => Sending(c, Ping, sends)
  }

  /** All the rounds, up to the one that ends the connection. */
  function Served(vault: string, turns: seq<Turn>): Conn {
    if turns == [] then Conn({}, [], true)
    else
      var c := Served(vault, turns[..|turns| - 1]);
      if c.open then Handle(vault, c, turns[|turns| - 1]) else c
  }

  lemma {:induction false} ServedEnds(vault: string, turns: seq<Turn>, i: nat)
    requires i <= |turns| && !Served(vault, turns[..i]).open
    ensures Served(vault, turns) == Served(vault, turns[..i])
  {
    if i < |turns| {
      var init := turns[..|turns| - 1];
      assert init[..i] == turns[..i];
      ServedEnds(vault, init, i);
    } else {
      assert turns[..i] == turns;
    }
  }

  method HandleControl(parsed: Option<Json>, channels: set<string>) returns (r: set<string>)
    ensures r == Controlled(channels, ControlOf(parsed))
  {
    r := channels;
    if parsed.None? {
      return;
    }
    var kind := Member(parsed.value, "type");
    if kind == Str("subscribe-channel") {
      var c := Member(parsed.value, "channel");
      if c.Str? {
        r := channels + {c.s};
      }
    } else if kind == Str("unsubscribe-channel") {
      var c := Member(parsed.value, "channel");
      if c.Str? {
        r := channels - {c.s};
      }
    }
  }

  /** The event loop; `turns` says what wakes it, round by round. */
  method ServeSocket(vault: string, turns: seq<Turn>) returns (sent: seq<Frame>, channels: set<string>, open: bool)
    ensures Conn(channels, sent, open) == Served(vault, turns)
  {
    sent, channels, open := [], {}, true;
    ghost var rounds := 0;
    for i := 0 to |turns|
      invariant open && Served(vault, turns[..i]) == Conn(channels, sent, true)
    {
      assert turns[..i + 1][..i] == turns[..i];
      rounds := i + 1;
      match turns[i] {
        case FileTurn(event, sends) =>
          if event.Got? {
            if !sends {
              open := false;
              break;
            }
            sent := sent + [EventFrame(event.value)];
          } else if event.Closed? {
            open := false;
            break;
          }
        case PluginTurn(msg, sends) =>
          if msg.Got? {
            if msg.value.vault == vault && msg.value.channel in channels {
              if !sends {
                open := false;
                break;
              }
              sent := sent + [PluginFrame(msg.value.json)];
            }
          }
        case ClientTurn(incoming) =>
          if incoming.Text? {
            channels := HandleControl(incoming.parsed, channels);
          } else if !incoming.OtherFrame? {
            open := false;
            break;
          }
        case Beat(sends) =>
          if !sends {
            open := false;
            break;
          }
          sent := sent + [Ping];
      }
    }
    if open {
      assert turns[..|turns|] == turns;
    } else {
      ServedEnds(vault, turns, rounds);
    }
  }

  // ---- what the loop does, told from the messages themselves ----

  /** A text message that asks for `kind` about `channel`. */
  predicate Says(t: Turn, kind: string, channel: string) {
    && t.ClientTurn? && t.incoming.Text? && t.incoming.parsed.Some? && t.incoming.parsed.value.Obj?
    && var m := t.incoming.parsed.value.fields;
      "type" in m && m["type"] == Str(kind) && "channel" in m && m["channel"] == Str(channel)
  }

  /** The channel was subscribed to, and not unsubscribed since. */
  predicate Listens(turns: seq<Turn>, channel: string) {
    exists i :: 0 <= i < |turns| && Says(turns[i], "subscribe-channel", channel)
      && forall j :: i < j < |turns| ==> !Says(turns[j], "unsubscribe-channel", channel)
  }

  /** The frame that the last of these turns is good for. */
  function FrameFor(vault: string, before: seq<Turn>, t: Turn): seq<Frame> {
    match t
    case FileTurn(Got(e), _) => [EventFrame(e)]
    case PluginTurn(Got(m), _) => if m.vault == vault && Listens(before, m.channel) then [PluginFrame(m.json)] else []
    case Beat(_) => [Ping]
    case _ => []
  }

  function FramesFor(vault: string, turns: seq<Turn>): seq<Frame> {
    if turns == [] then []
    else
      var init, t := turns[..|turns| - 1], turns[|turns| - 1];
      FramesFor(vault, init) + FrameFor(vault, init, t)
  }

  /** What ends a connection: its vault is dropped, the client goes, or a frame cannot be sent. */
  predicate Closes(vault: string, before: seq<Turn>, t: Turn) {
    match t
    case FileTurn(event, sends) => event.Closed? || (event.Got? && !sends)
    case PluginTurn(_, sends) => FrameFor(vault, before, t) != [] && !sends
    case ClientTurn(incoming) => incoming.CloseFrame? || incoming.Failure? || incoming.Ended?
    case Beat(sends) => !sends
  }

  predicate ClosesAt(vault: string, turns: seq<Turn>, i: nat) {
    i < |turns| && Closes(vault, turns[..i], turns[i])
  }

  /** The loop goes on as long as nothing ends the connection; until then it knows the channels
      whose latest word was to subscribe, and has sent the frames of all its turns. */
  lemma {:induction false} ServedMeans(vault: string, turns: seq<Turn>)
    ensures Served(vault, turns).open <==> forall i :: 0 <= i < |turns| ==> !ClosesAt(vault, turns, i)
    ensures Served(vault, turns).open ==>
      && Served(vault, turns).sent == FramesFor(vault, turns)
      && forall channel :: channel in Served(vault, turns).channels <==> Listens(turns, channel)
  {
    if turns != [] {
      var n := |turns| - 1;
      var init, t := turns[..n], turns[n];
      ServedMeans(vault, init);
      forall i | 0 <= i < n ensures ClosesAt(vault, turns, i) <==> ClosesAt(vault, init, i) {
        assert init[..i] == turns[..i];
      }
      forall channel ensures Listens(turns, channel) <==>
        Says(t, "subscribe-channel", channel) || (Listens(init, channel) && !Says(t, "unsubscribe-channel", channel))
      {
        ListensOn(turns, channel);
      }
      assert turns[..n] == init;
      assert Served(vault, init).open ==> (Closes(vault, init, t) <==> !Served(vault, turns).open);
      assert ClosesAt(vault, turns, n) <==> Closes(vault, init, t);
    }
  }

  /** Where the connection ends, nothing more is sent. */
  lemma ServedUntil(vault: string, turns: seq<Turn>, i: nat)
    requires ClosesAt(vault, turns, i) && forall j :: 0 <= j < i ==> !ClosesAt(vault, turns, j)
    ensures !Served(vault, turns).open && Served(vault, turns).sent == FramesFor(vault, turns[..i])
  {
    var upTo := turns[..i + 1];
    assert upTo[..i] == turns[..i];
    forall j | 0 <= j <= i ensures ClosesAt(vault, upTo, j) <==> ClosesAt(vault, turns, j) {
      assert upTo[..j] == turns[..j];
    }
    forall j | 0 <= j < i ensures !ClosesAt(vault, turns[..i], j) {
      assert turns[..i][..j] == turns[..j] && turns[..i][j] == turns[j];
      assert !ClosesAt(vault, turns, j);
    }
    ServedMeans(vault, turns[..i]);
    ServedMeans(vault, upTo);
    ServedEnds(vault, turns, i + 1);
  }

  lemma ListensOn(turns: seq<Turn>, channel: string)
    requires turns != []
    ensures var init, t := turns[..|turns| - 1], turns[|turns| - 1];
      Listens(turns, channel) <==>
        Says(t, "subscribe-channel", channel) || (Listens(init, channel) && !Says(t, "unsubscribe-channel", channel))
  {
    var n := |turns| - 1;
    var init, t := turns[..n], turns[n];
    if Says(t, "subscribe-channel", channel) {
      assert Says(turns[n], "subscribe-channel", channel);
    } else if Listens(init, channel) && !Says(t, "unsubscribe-channel", channel) {
      var i :| 0 <= i < n && Says(init[i], "subscribe-channel", channel)
        && forall j :: i < j < n ==> !Says(init[j], "unsubscribe-channel", channel);
      assert Says(turns[i], "subscribe-channel", channel);
    }
    if Listens(turns, channel) && !Says(t, "subscribe-channel", channel) {
      var i :| 0 <= i <= n && Says(turns[i], "subscribe-channel", channel)
        && forall j :: i < j <= n ==> !Says(turns[j], "unsubscribe-channel", channel);
      assert Says(init[i], "subscribe-channel", channel);
      forall j | i < j < n ensures !Says(init[j], "unsubscribe-channel", channel) {
        assert init[j] == turns[j];
      }
    }
  }

  // ---- the socket in a running server ----

  /** What reached the socket, in the order it took it up; `lost` marks messages that were
      dropped because it lagged, or whose send failed. */
  datatype Heard =
    | HeardEvent(event: Event, lost: bool)
    | HeardPlugin(msg: PluginMsg, lost: bool)
    | HeardControl(control: Control)

  datatype Socket = Socket(vault: string, conn: Conn, events: Ring<Event>, plugins: Ring<PluginMsg>, heard: seq<Heard>)

  datatype Step =
    | Publish(event: Event)
    | Broadcast(msg: PluginMsg)
    | DropVault
    | DropHub
    | TakeEvent(sends: bool)
    | TakePlugin(sends: bool)
    | TakeClient(incoming: Incoming)
    | TakeBeat(sends: bool)

  /** Subscribing: reading starts at the end of both logs. */
  function Opened(vault: string, events: seq<Event>, plugins: seq<PluginMsg>): Socket {
    Socket(vault, Conn({}, [], true), Ring(events, |events|, false), Ring(plugins, |plugins|, false), [])
  }

  predicate Enabled(s: Socket, a: Step) {
    && InStep(s.events) && InStep(s.plugins)
    && match a
       case Publish(_) => !s.events.gone
       case Broadcast(_) => !s.plugins.gone
       case DropVault => true
       case DropHub => true
       case TakeEvent(_) => s.conn.open && Recv(s.events).Some?
       case TakePlugin(_) => s.conn.open && Recv(s.plugins).Some?
       case TakeClient(_) => s.conn.open
       case TakeBeat(_) => s.conn.open
  }

  function TurnOf(s: Socket, a: Step): Option<Turn>
    requires Enabled(s, a)
  {
    match a
    case TakeEvent(sends) => Some(FileTurn(Recv(s.events).value, sends))
    case TakePlugin(sends) => Some(PluginTurn(Recv(s.plugins).value, sends))
    case TakeClient(incoming) => Some(ClientTurn(incoming))
    case TakeBeat(sends) => Some(Beat(sends))
    case _ => None
  }

  function LostEvents(events: seq<Event>): (r: seq<Heard>) {
    if events == [] then [] else LostEvents(events[..|events| - 1]) + [HeardEvent(events[|events| - 1], true)]
  }

  function LostPlugins(msgs: seq<PluginMsg>): (r: seq<Heard>) {
    if msgs == [] then [] else LostPlugins(msgs[..|msgs| - 1]) + [HeardPlugin(msgs[|msgs| - 1], true)]
  }

  function HeardBy(s: Socket, a: Step): seq<Heard>
    requires Enabled(s, a)
  {
    match a
    case TakeEvent(sends) =>
      if Behind(s.events) then LostEvents(s.events.log[s.events.next..|s.events.log| - CAPACITY])
      else if s.events.next < |s.events.log| then [HeardEvent(s.events.log[s.events.next], !sends)]
      else []
    case TakePlugin(sends) =>
      if Behind(s.plugins) then LostPlugins(s.plugins.log[s.plugins.next..|s.plugins.log| - CAPACITY])
      else if s.plugins.next < |s.plugins.log| then
        var m := s.plugins.log[s.plugins.next];
        [HeardPlugin(m, !sends && Matches(s.vault, s.conn.channels, m))]
      else []
    case TakeClient(Text(parsed)) => [HeardControl(ControlOf(parsed))]
    case _ => []
  }

  function Apply(s: Socket, a: Step): Socket
    requires Enabled(s, a)
  {
    match a
    case Publish(e) => s.(events := s.events.(log := s.events.log + [e]))
    case Broadcast(m) => s.(plugins := s.plugins.(log := s.plugins.log + [m]))
    case DropVault => s.(events := s.events.(gone := true))
    case DropHub => s.(plugins := s.plugins.(gone := true))
    case TakeEvent(_) => Woken(s, a, AfterRecv(s.events), s.plugins)
    case TakePlugin(_) => Woken(s, a, s.events, AfterRecv(s.plugins))
    case TakeClient(_) => Woken(s, a, s.events, s.plugins)
    case TakeBeat(_) => Woken(s, a, s.events, s.plugins)
  }

  function Woken(s: Socket, a: Step, events: Ring<Event>, plugins: Ring<PluginMsg>): Socket
    requires Enabled(s, a) && TurnOf(s, a).Some?
  {
    Socket(s.vault, Handle(s.vault, s.conn, TurnOf(s, a).value), events, plugins, s.heard + HeardBy(s, a))
  }

  predicate Runs(s: Socket, steps: seq<Step>)
    decreases |steps|
  {
    steps == [] || (Enabled(s, steps[0]) && Runs(Apply(s, steps[0]), steps[1..]))
  }

  function Run(s: Socket, steps: seq<Step>): Socket
    requires Runs(s, steps)
    decreases |steps|
  {
    if steps == [] then s else Run(Apply(s, steps[0]), steps[1..])
  }

  /** What wakes the loop in the course of a run. */
  function TurnsOf(s: Socket, steps: seq<Step>): seq<Turn>
    requires Runs(s, steps)
    decreases |steps|
  {
    if steps == [] then []
    else
      var t := TurnOf(s, steps[0]);
      (if t.Some? then [t.value] else []) + TurnsOf(Apply(s, steps[0]), steps[1..])
  }

  /** In a run the connection fares as the event loop does, woken by the same turns. */
  lemma {:induction false} RunIsServed(s: Socket, past: seq<Turn>, steps: seq<Step>)
    requires Runs(s, steps) && Served(s.vault, past) == s.conn
    ensures Run(s, steps).conn == Served(s.vault, past + TurnsOf(s, steps))
    decreases |steps|
  {
    if steps == [] {
      assert past + [] == past;
    } else {
      var t, s' := TurnOf(s, steps[0]), Apply(s, steps[0]);
      if t.None? {
        assert past + TurnsOf(s, steps) == past + TurnsOf(s', steps[1..]);
        RunIsServed(s', past, steps[1..]);
      } else {
        assert (past + [t.value])[..|past|] == past;
        RunIsServed(s', past + [t.value], steps[1..]);
        ConcatAssociates(past, [t.value], TurnsOf(s', steps[1..]));
      }
    }
  }

  // ---- what the client should see ----

  /** Whether the latest word about `channel` was to subscribe. */
  predicate Wants(heard: seq<Heard>, channel: string) {
    heard != [] &&
      var last := heard[|heard| - 1];
      if last.HeardControl? && last.control == Subscribe(channel) then true
      else if last.HeardControl? && last.control == Unsubscribe(channel) then false
      else Wants(heard[..|heard| - 1], channel)
  }

  /** The frame a message is due, given all that came before it. */
  function Due(vault: string, before: seq<Heard>, h: Heard): seq<Frame> {
    match h
    case HeardEvent(e, _) => [EventFrame(e)]
    case HeardPlugin(m, _) => if m.vault == vault && Wants(before, m.channel) then [PluginFrame(m.json)] else []
    case HeardControl(_) => []
  }

  predicate Lost(h: Heard) { !h.HeardControl? && h.lost }

  /** Every frame due, as if nothing had been lost. */
  function Ideal(vault: string, heard: seq<Heard>): seq<Frame> {
    if heard == [] then []
    else Ideal(vault, heard[..|heard| - 1]) + Due(vault, heard[..|heard| - 1], heard[|heard| - 1])
  }

  /** The frames due for what was not lost. */
  function Delivered(vault: string, heard: seq<Heard>): seq<Frame> {
    if heard == [] then []
    else
      Delivered(vault, heard[..|heard| - 1])
      + if Lost(heard[|heard| - 1]) then [] else Due(vault, heard[..|heard| - 1], heard[|heard| - 1])
  }

  function Texts(frames: seq<Frame>): seq<Frame> {
    if frames == [] then []
    else Texts(frames[..|frames| - 1]) + if frames[|frames| - 1].Ping? then [] else [frames[|frames| - 1]]
  }

  function EventsHeard(heard: seq<Heard>): seq<Event> {
    if heard == [] then []
    else EventsHeard(heard[..|heard| - 1]) + if heard[|heard| - 1].HeardEvent? then [heard[|heard| - 1].event] else []
  }

  function PluginsHeard(heard: seq<Heard>): seq<PluginMsg> {
    if heard == [] then []
    else PluginsHeard(heard[..|heard| - 1]) + if heard[|heard| - 1].HeardPlugin? then [heard[|heard| - 1].msg] else []
  }

  /** What a socket knows and has sent, in terms of what has reached it. */
  ghost predicate Follows(vault: string, c: Conn, heard: seq<Heard>, events: seq<Event>, plugins: seq<PluginMsg>) {
    && (forall channel :: channel in c.channels <==> Wants(heard, channel))
    && Texts(c.sent) == Delivered(vault, heard)
    && EventsHeard(heard) == events && PluginsHeard(heard) == plugins
  }

  /** The same, with what has reached it being what its receivers have read since it opened. */
  ghost predicate Faithful(s: Socket, from: nat, pfrom: nat) {
    && from <= s.events.next <= |s.events.log| && pfrom <= s.plugins.next <= |s.plugins.log|
    && Follows(s.vault, s.conn, s.heard, s.events.log[from..s.events.next], s.plugins.log[pfrom..s.plugins.next])
  }

  lemma SendOne(sent: seq<Frame>, f: Frame)
    ensures Texts(sent + [f]) == Texts(sent) + if f.Ping? then [] else [f]
  {
  }

  lemma ReadOn<T>(log: seq<T>, from: nat, i: nat, j: nat)
    requires from <= i <= j <= |log|
    ensures log[from..i] + log[i..j] == log[from..j]
  {
  }

  lemma FollowEvent(
    vault: string, c: Conn, heard: seq<Heard>, events: seq<Event>, plugins: seq<PluginMsg>,
    e: Event, sends: bool)
    requires Follows(vault, c, heard, events, plugins)
    ensures Follows(vault, Sending(c, EventFrame(e), sends), heard + [HeardEvent(e, !sends)], events + [e], plugins)
  {
  }

  lemma FollowPlugin(
    vault: string, c: Conn, heard: seq<Heard>, events: seq<Event>, plugins: seq<PluginMsg>,
    m: PluginMsg, sends: bool)
    requires Follows(vault, c, heard, events, plugins)
    ensures var due := Matches(vault, c.channels, m);
      Follows(vault, if due then Sending(c, PluginFrame(m.json), sends) else c,
              heard + [HeardPlugin(m, !sends && due)], events, plugins + [m])
  {
  }

  lemma FollowControl(
    vault: string, c: Conn, heard: seq<Heard>, events: seq<Event>, plugins: seq<PluginMsg>,
    control: Control)
    requires Follows(vault, c, heard, events, plugins)
    ensures Follows(vault, c.(channels := Controlled(c.channels, control)),
                    heard + [HeardControl(control)], events, plugins)
  {
  }

  lemma {:induction false} FollowLostEvents(
    vault: string, c: Conn, heard: seq<Heard>, events: seq<Event>, plugins: seq<PluginMsg>,
    dropped: seq<Event>)
    requires Follows(vault, c, heard, events, plugins)
    ensures Follows(vault, c, heard + LostEvents(dropped), events + dropped, plugins)
  {
    if dropped == [] {
      NoneMore(heard);
      NoneMore(events);
    } else {
      var init, e := dropped[..|dropped| - 1], dropped[|dropped| - 1];
      FollowLostEvents(vault, c, heard, events, plugins, init);
      FollowEvent(vault, c, heard + LostEvents(init), events + init, plugins, e, false);
      ConcatAssociates(heard, LostEvents(init), [HeardEvent(e, true)]);
      ConcatAssociates(events, init, [e]);
      assert init + [e] == dropped;
    }
  }

  lemma FollowLostPlugin(
    vault: string, c: Conn, heard: seq<Heard>, events: seq<Event>, plugins: seq<PluginMsg>,
    m: PluginMsg)
    requires Follows(vault, c, heard, events, plugins)
    ensures Follows(vault, c, heard + [HeardPlugin(m, true)], events, plugins + [m])
  {
  }

  lemma {:induction false} FollowLostPlugins(
    vault: string, c: Conn, heard: seq<Heard>, events: seq<Event>, plugins: seq<PluginMsg>,
    dropped: seq<PluginMsg>)
    requires Follows(vault, c, heard, events, plugins)
    ensures Follows(vault, c, heard + LostPlugins(dropped), events, plugins + dropped)
  {
    if dropped == [] {
      NoneMore(heard);
      NoneMore(plugins);
    } else {
      var init, m := dropped[..|dropped| - 1], dropped[|dropped| - 1];
      FollowLostPlugins(vault, c, heard, events, plugins, init);
      FollowLostPlugin(vault, c, heard + LostPlugins(init), events, plugins + init, m);
      ConcatAssociates(heard, LostPlugins(init), [HeardPlugin(m, true)]);
      ConcatAssociates(plugins, init, [m]);
      assert init + [m] == dropped;
    }
  }

  lemma EventGot(s: Socket, sends: bool)
    requires Enabled(s, TakeEvent(sends)) && !Behind(s.events) && s.events.next < |s.events.log|
    ensures var e := s.events.log[s.events.next];
      Apply(s, TakeEvent(sends)) ==
      s.(conn := Sending(s.conn, EventFrame(e), sends), events := s.events.(next := s.events.next + 1),
         heard := s.heard + [HeardEvent(e, !sends)])
  {
  }

  lemma PluginGot(s: Socket, sends: bool)
    requires Enabled(s, TakePlugin(sends)) && !Behind(s.plugins) && s.plugins.next < |s.plugins.log|
    ensures var m := s.plugins.log[s.plugins.next];
      var due := Matches(s.vault, s.conn.channels, m);
      Apply(s, TakePlugin(sends)) ==
      s.(conn := if due then Sending(s.conn, PluginFrame(m.json), sends) else s.conn,
         plugins := s.plugins.(next := s.plugins.next + 1),
         heard := s.heard + [HeardPlugin(m, !sends && due)])
  {
  }

  lemma EventFaithful(s: Socket, from: nat, pfrom: nat, sends: bool)
    requires Faithful(s, from, pfrom) && Enabled(s, TakeEvent(sends))
    ensures Faithful(Apply(s, TakeEvent(sends)), from, pfrom)
  {
    if Behind(s.events) {
      EventsDropped(s, from, pfrom, sends);
    } else if s.events.next < |s.events.log| {
      EventRead(s, from, pfrom, sends);
    } else {
      NoneMore(s.heard);
    }
  }

  lemma EventRead(s: Socket, from: nat, pfrom: nat, sends: bool)
    requires Faithful(s, from, pfrom) && Enabled(s, TakeEvent(sends))
    requires !Behind(s.events) && s.events.next < |s.events.log|
    ensures Faithful(Apply(s, TakeEvent(sends)), from, pfrom)
  {
    var log, next := s.events.log, s.events.next;
    EventGot(s, sends);
    FollowEvent(s.vault, s.conn, s.heard, log[from..next], s.plugins.log[pfrom..s.plugins.next], log[next], sends);
    ReadOne(log, from, next);
  }

  lemma EventsDropped(s: Socket, from: nat, pfrom: nat, sends: bool)
    requires Faithful(s, from, pfrom) && Enabled(s, TakeEvent(sends)) && Behind(s.events)
    ensures Faithful(Apply(s, TakeEvent(sends)), from, pfrom)
  {
    var log, next := s.events.log, s.events.next;
    var plugins := s.plugins.log[pfrom..s.plugins.next];
    FollowLostEvents(s.vault, s.conn, s.heard, log[from..next], plugins, log[next..|log| - CAPACITY]);
    ReadOn(log, from, next, |log| - CAPACITY);
  }

  lemma PluginFaithful(s: Socket, from: nat, pfrom: nat, sends: bool)
    requires Faithful(s, from, pfrom) && Enabled(s, TakePlugin(sends))
    ensures Faithful(Apply(s, TakePlugin(sends)), from, pfrom)
  {
    if Behind(s.plugins) {
      PluginsDropped(s, from, pfrom, sends);
    } else if s.plugins.next < |s.plugins.log| {
      PluginRead(s, from, pfrom, sends);
    } else {
      NoneMore(s.heard);
    }
  }

  lemma PluginRead(s: Socket, from: nat, pfrom: nat, sends: bool)
    requires Faithful(s, from, pfrom) && Enabled(s, TakePlugin(sends))
    requires !Behind(s.plugins) && s.plugins.next < |s.plugins.log|
    ensures Faithful(Apply(s, TakePlugin(sends)), from, pfrom)
  {
    var log, next := s.plugins.log, s.plugins.next;
    PluginGot(s, sends);
    FollowPlugin(s.vault, s.conn, s.heard, s.events.log[from..s.events.next], log[pfrom..next], log[next], sends);
    ReadOne(log, pfrom, next);
  }

  lemma PluginsDropped(s: Socket, from: nat, pfrom: nat, sends: bool)
    requires Faithful(s, from, pfrom) && Enabled(s, TakePlugin(sends)) && Behind(s.plugins)
    ensures Faithful(Apply(s, TakePlugin(sends)), from, pfrom)
  {
    var log, next := s.plugins.log, s.plugins.next;
    var events := s.events.log[from..s.events.next];
    FollowLostPlugins(s.vault, s.conn, s.heard, events, log[pfrom..next], log[next..|log| - CAPACITY]);
    ReadOn(log, pfrom, next, |log| - CAPACITY);
  }

  lemma ReadOne<T>(log: seq<T>, from: nat, i: nat)
    requires from <= i < |log|
    ensures log[from..i] + [log[i]] == log[from..i + 1]
  {
  }

  lemma ClientFaithful(s: Socket, from: nat, pfrom: nat, incoming: Incoming)
    requires Faithful(s, from, pfrom) && Enabled(s, TakeClient(incoming))
    ensures Faithful(Apply(s, TakeClient(incoming)), from, pfrom)
  {
    if incoming.Text? {
      FollowControl(s.vault, s.conn, s.heard, s.events.log[from..s.events.next], s.plugins.log[pfrom..s.plugins.next],
                    ControlOf(incoming.parsed));
    } else {
      NoneMore(s.heard);
    }
  }

  lemma StepFaithful(s: Socket, from: nat, pfrom: nat, a: Step)
    requires Faithful(s, from, pfrom) && Enabled(s, a)
    ensures Faithful(Apply(s, a), from, pfrom)
  {
    match a
    case Publish(e) => assert (s.events.log + [e])[from..s.events.next] == s.events.log[from..s.events.next];
    case Broadcast(m) => assert (s.plugins.log + [m])[pfrom..s.plugins.next] == s.plugins.log[pfrom..s.plugins.next];
    case DropVault =>
    case DropHub =>
    case TakeEvent(sends) => EventFaithful(s, from, pfrom, sends);
    case TakePlugin(sends) => PluginFaithful(s, from, pfrom, sends);
    case TakeClient(incoming) => ClientFaithful(s, from, pfrom, incoming);
    case TakeBeat(_) =>
      SendOne(s.conn.sent, Ping);
      assert s.heard + [] == s.heard;
  }

  lemma {:induction false} RunFaithful(s: Socket, from: nat, pfrom: nat, steps: seq<Step>)
    requires Faithful(s, from, pfrom) && Runs(s, steps)
    ensures Faithful(Run(s, steps), from, pfrom) && Run(s, steps).vault == s.vault
    decreases |steps|
  {
    if steps != [] {
      StepFaithful(s, from, pfrom, steps[0]);
      RunFaithful(Apply(s, steps[0]), from, pfrom, steps[1..]);
    }
  }

  // ---- nothing lost, or only some of it ----

  predicate Subsequence<T(==)>(a: seq<T>, b: seq<T>) {
    if a == [] then true
    else if b == [] then false
    else
      || (a[|a| - 1] == b[|b| - 1] && Subsequence(a[..|a| - 1], b[..|b| - 1]))
      || Subsequence(a, b[..|b| - 1])
  }

  lemma SubsequenceGrows<T>(a: seq<T>, b: seq<T>, x: T)
    requires Subsequence(a, b)
    ensures Subsequence(a, b + [x]) && Subsequence(a + [x], b + [x])
  {
  }

  lemma {:induction false} DeliveredIsPart(vault: string, heard: seq<Heard>)
    ensures Subsequence(Delivered(vault, heard), Ideal(vault, heard))
  {
    if heard != [] {
      var init, h := heard[..|heard| - 1], heard[|heard| - 1];
      DeliveredIsPart(vault, init);
      var due := Due(vault, init, h);
      if due != [] {
        assert due == [due[0]];
        SubsequenceGrows(Delivered(vault, init), Ideal(vault, init), due[0]);
      }
      assert Delivered(vault, init) + [] == Delivered(vault, init) && Ideal(vault, init) + [] == Ideal(vault, init);
    }
  }

  predicate NoneLost(heard: seq<Heard>) { forall h :: h in heard ==> !Lost(h) }

  lemma {:induction false} NoneLostDelivered(vault: string, heard: seq<Heard>)
    requires NoneLost(heard)
    ensures Delivered(vault, heard) == Ideal(vault, heard)
  {
    if heard != [] {
      assert heard[|heard| - 1] in heard;
      NoneLostDelivered(vault, heard[..|heard| - 1]);
    }
  }

  /** The socket never finds that it has fallen behind. */
  predicate KeepsPace(s: Socket, steps: seq<Step>)
    requires Runs(s, steps)
    decreases |steps|
  {
    steps == [] ||
      (&& (steps[0].TakeEvent? ==> !Behind(s.events))
       && (steps[0].TakePlugin? ==> !Behind(s.plugins))
       && KeepsPace(Apply(s, steps[0]), steps[1..]))
  }

  lemma {:induction false} ClosedForGood(s: Socket, steps: seq<Step>)
    requires Runs(s, steps) && !s.conn.open
    ensures !Run(s, steps).conn.open
    decreases |steps|
  {
    if steps != [] {
      ClosedForGood(Apply(s, steps[0]), steps[1..]);
    }
  }

  lemma {:induction false} PaceLosesNothing(s: Socket, steps: seq<Step>)
    requires Runs(s, steps) && KeepsPace(s, steps) && Run(s, steps).conn.open && NoneLost(s.heard)
    ensures NoneLost(Run(s, steps).heard)
    decreases |steps|
  {
    if steps != [] {
      var s' := Apply(s, steps[0]);
      if !s'.conn.open {
        ClosedForGood(s', steps[1..]);
      }
      PaceLosesNothing(s', steps[1..]);
    }
  }

  /** Whatever the interleaving, the texts sent are a subsequence of those due: every event of
      the vault, and every plugin message for it on a channel whose latest control was to
      subscribe. They are all of those, in order, when the socket keeps pace and stays open. */
  lemma Forwarding(vault: string, events: seq<Event>, plugins: seq<PluginMsg>, steps: seq<Step>)
    requires Runs(Opened(vault, events, plugins), steps)
    ensures var s0 := Opened(vault, events, plugins);
      var s := Run(s0, steps);
      && |events| <= s.events.next <= |s.events.log| && |plugins| <= s.plugins.next <= |s.plugins.log|
      && EventsHeard(s.heard) == s.events.log[|events|..s.events.next]
      && PluginsHeard(s.heard) == s.plugins.log[|plugins|..s.plugins.next]
      && Subsequence(Texts(s.conn.sent), Ideal(vault, s.heard))
      && (KeepsPace(s0, steps) && s.conn.open ==> Texts(s.conn.sent) == Ideal(vault, s.heard))
  {
    var s0 := Opened(vault, events, plugins);
    RunFaithful(s0, |events|, |plugins|, steps);
    var s := Run(s0, steps);
    DeliveredIsPart(vault, s.heard);
    if KeepsPace(s0, steps) && s.conn.open {
      PaceLosesNothing(s0, steps);
      NoneLostDelivered(vault, s.heard);
    }
  }

  // ---- end to end ----

  /** The events among the frames a client has received. */
  function EventsIn(frames: seq<Frame>): seq<Event> {
    if frames == [] then []
    else
      var last := frames[|frames| - 1];
      EventsIn(frames[..|frames| - 1]) + if last.EventFrame? then [last.event] else []
  }

  lemma {:induction false} TextsKeepEvents(frames: seq<Frame>)
    ensures EventsIn(Texts(frames)) == EventsIn(frames)
  {
    if frames != [] {
      var init, f := frames[..|frames| - 1], frames[|frames| - 1];
      TextsKeepEvents(init);
      if f.Ping? {
        assert Texts(init) + [] == Texts(init);
      } else {
        assert (Texts(init) + [f])[..|Texts(init)|] == Texts(init);
      }
    }
  }

  lemma {:induction false} IdealEvents(vault: string, heard: seq<Heard>)
    ensures EventsIn(Ideal(vault, heard)) == EventsHeard(heard)
  {
    if heard != [] {
      var init, h := heard[..|heard| - 1], heard[|heard| - 1];
      IdealEvents(vault, init);
      var due := Due(vault, init, h);
      var before := Ideal(vault, init);
      if due == [] {
        assert before + [] == before && EventsHeard(init) + [] == EventsHeard(init);
      } else {
        assert due == [due[0]];
        assert (before + [due[0]])[..|before|] == before;
      }
    }
  }

  lemma EventsOfIdeal(vault: string, sent: seq<Frame>, heard: seq<Heard>)
    requires Texts(sent) == Ideal(vault, heard)
    ensures EventsIn(sent) == EventsHeard(heard)
  {
    TextsKeepEvents(sent);
    IdealEvents(vault, heard);
  }

  /** A socket that has kept pace and has read everything has sent on exactly the events
      published since it opened. */
  lemma EventsArrive(vault: string, events: seq<Event>, plugins: seq<PluginMsg>, steps: seq<Step>)
    requires var c0 := Opened(vault, events, plugins); Runs(c0, steps) && KeepsPace(c0, steps)
    requires var c := Run(Opened(vault, events, plugins), steps); c.conn.open && c.events.next == |c.events.log|
    ensures var c := Run(Opened(vault, events, plugins), steps);
      |events| <= |c.events.log| && EventsIn(c.conn.sent) == c.events.log[|events|..]
  {
    var c := Run(Opened(vault, events, plugins), steps);
    Forwarding(vault, events, plugins, steps);
    EventsOfIdeal(vault, c.conn.sent, c.heard);
    assert c.events.log[|events|..|c.events.log|] == c.events.log[|events|..];
  }

  // ---- end to end, lag included ----

  /** The events that got through. */
  function EventsGot(heard: seq<Heard>): seq<Event> {
    if heard == [] then []
    else
      var last := heard[|heard| - 1];
      EventsGot(heard[..|heard| - 1]) + if last.HeardEvent? && !last.lost then [last.event] else []
  }

  /** The last event about `k` was lost. */
  predicate LastLost(heard: seq<Heard>, k: string) {
    heard != [] &&
      var last := heard[|heard| - 1];
      if last.HeardEvent? && Effect(last.event, k).Some? then last.lost else LastLost(heard[..|heard| - 1], k)
  }

  /** What the last event about `k` that got through said of it; `v0` if none did. */
  function LastDelivered(heard: seq<Heard>, k: string, v0: Option<Entry>): Option<Entry> {
    if heard == [] then v0
    else
      var last := heard[|heard| - 1];
      if last.HeardEvent? && !last.lost && Effect(last.event, k).Some? then Effect(last.event, k).value
      else LastDelivered(heard[..|heard| - 1], k, v0)
  }

  lemma {:induction false} DeliveredEvents(vault: string, heard: seq<Heard>)
    ensures EventsIn(Delivered(vault, heard)) == EventsGot(heard)
  {
    if heard != [] {
      var init, h := heard[..|heard| - 1], heard[|heard| - 1];
      DeliveredEvents(vault, init);
      var due := if Lost(h) then [] else Due(vault, init, h);
      var before := Delivered(vault, init);
      if due == [] {
        NoneMore(before);
        NoneMore(EventsGot(init));
      } else {
        assert due == [due[0]] && (before + [due[0]])[..|before|] == before;
        NoneMore(EventsGot(init));
      }
    }
  }

  lemma {:induction false} GotIsDelivered(t: Tree, heard: seq<Heard>, k: string)
    ensures Get(Replay(t, EventsGot(heard)), k) == LastDelivered(heard, k, Get(t, k))
  {
    if heard != [] {
      var init, h := heard[..|heard| - 1], heard[|heard| - 1];
      GotIsDelivered(t, init, k);
      if h.HeardEvent? && !h.lost {
        OneMoreEvent(t, EventsGot(init), h.event, k);
      } else {
        NoneMore(EventsGot(init));
      }
    }
  }

  lemma OneMoreEvent(t: Tree, events: seq<Event>, e: Event, k: string)
    ensures Get(Replay(t, events + [e]), k) ==
            if Effect(e, k).Some? then Effect(e, k).value else Get(Replay(t, events), k)
  {
    assert (events + [e])[..|events|] == events;
  }

  /** A key whose last event was not lost is as if nothing had been. */
  lemma {:induction false} UnlostIsTold(t: Tree, heard: seq<Heard>, k: string)
    requires !LastLost(heard, k)
    ensures LastDelivered(heard, k, Get(t, k)) == Get(Replay(t, EventsHeard(heard)), k)
  {
    if heard != [] {
      var init, h := heard[..|heard| - 1], heard[|heard| - 1];
      if h.HeardEvent? {
        OneMoreEvent(t, EventsHeard(init), h.event, k);
        if Effect(h.event, k).None? {
          UnlostIsTold(t, init, k);
        }
      } else {
        NoneMore(EventsHeard(init));
        UnlostIsTold(t, init, k);
      }
    }
  }

  /** What a socket has sent on, whatever was lost. */
  lemma SentIsGot(vault: string, events: seq<Event>, plugins: seq<PluginMsg>, steps: seq<Step>)
    requires Runs(Opened(vault, events, plugins), steps)
    ensures var c := Run(Opened(vault, events, plugins), steps);
      && EventsIn(c.conn.sent) == EventsGot(c.heard)
      && |events| <= c.events.next <= |c.events.log| && EventsHeard(c.heard) == c.events.log[|events|..c.events.next]
  {
    var c0 := Opened(vault, events, plugins);
    RunFaithful(c0, |events|, |plugins|, steps);
    var c := Run(c0, steps);
    TextsKeepEvents(c.conn.sent);
    DeliveredEvents(vault, c.heard);
  }

  /** For every run of the server and every run of a socket that has read all of its events,
      lagging or not: a client that loads the snapshot at any moment after opening the socket and
      applies the event frames it receives ends with a given tree exactly when, for every key,
      the last event about it got through and told the truth, or was lost and what came through
      before is true all the same. */
  lemma ClientEndsWith(
    s: State, before: seq<Label>, after: seq<Label>,
    vault: string, plugins: seq<PluginMsg>, steps: seq<Step>, truth: Tree)
    requires IndexSystem.Runs(s, before + after) && Runs(Opened(vault, s.log, plugins), steps)
    requires var c := Run(Opened(vault, s.log, plugins), steps);
      c.events.log == IndexSystem.Run(s, before + after).log && c.events.next == |c.events.log|
    ensures IndexSystem.Runs(s, before)
    ensures var loaded, c := IndexSystem.Run(s, before).snapshot, Run(Opened(vault, s.log, plugins), steps);
      Replay(loaded, EventsIn(c.conn.sent)) == truth <==>
        forall k :: Ended(s, before + after, c.heard, k, Get(loaded, k)) == Get(truth, k)
  {
    RunConcat(s, before, after);
    SentIsGot(vault, s.log, plugins, steps);
    var loaded, c := IndexSystem.Run(s, before).snapshot, Run(Opened(vault, s.log, plugins), steps);
    var client := Replay(loaded, EventsIn(c.conn.sent));
    forall k ensures Get(client, k) == Ended(s, before + after, c.heard, k, Get(loaded, k)) {
      EndsAs(s, before + after, loaded, c, k);
    }
    if forall k :: Ended(s, before + after, c.heard, k, Get(loaded, k)) == Get(truth, k) {
      SameTree(client, truth);
    }
  }

  /** Where a client ends on one key. */
  function Ended(s: State, ls: seq<Label>, heard: seq<Heard>, k: string, v0: Option<Entry>): Option<Entry>
    requires IndexSystem.Runs(s, ls)
  {
    if LastLost(heard, k) then LastDelivered(heard, k, v0) else LastTold(s, ls, k, v0)
  }

  lemma EndsAs(s: State, ls: seq<Label>, loaded: Tree, c: Socket, k: string)
    requires IndexSystem.Runs(s, ls) && |s.log| <= |c.events.log| && c.events.log == IndexSystem.Run(s, ls).log
    requires EventsIn(c.conn.sent) == EventsGot(c.heard)
    requires EventsHeard(c.heard) == c.events.log[|s.log|..|c.events.log|]
    ensures Get(Replay(loaded, EventsIn(c.conn.sent)), k) == Ended(s, ls, c.heard, k, Get(loaded, k))
  {
    GotIsDelivered(loaded, c.heard, k);
    if !LastLost(c.heard, k) {
      assert c.events.log[|s.log|..|c.events.log|] == c.events.log[|s.log|..];
      assert s.log[|s.log|..] == [];
      UnlostIsTold(loaded, c.heard, k);
      ReplayIsLastTold(loaded, |s.log|, s, ls, k);
    }
  }

  /** On a live index past its first walk, after a run with nothing left to look at, a client ends
      with the tree of the vault exactly when every key ended as it is. */
  lemma ClientSeesTheVault(
    s: State, before: seq<Label>, after: seq<Label>,
    vault: string, plugins: seq<PluginMsg>, steps: seq<Step>)
    requires NoLoss(s) && IndexSystem.Runs(s, before + after) && Diligent(s, before + after)
    requires var end := IndexSystem.Run(s, before + after); end.batch == None && end.walk == None && Queued(end) == {}
    requires Runs(Opened(vault, s.log, plugins), steps)
    requires var c := Run(Opened(vault, s.log, plugins), steps);
      c.events.log == IndexSystem.Run(s, before + after).log && c.events.next == |c.events.log|
    ensures IndexSystem.Runs(s, before)
    ensures var loaded, end := IndexSystem.Run(s, before).snapshot, IndexSystem.Run(s, before + after);
      var c := Run(Opened(vault, s.log, plugins), steps);
      && end.snapshot == TreeOf(end.disk)
      && (Replay(loaded, EventsIn(c.conn.sent)) == TreeOf(end.disk) <==>
            forall k :: Ended(s, before + after, c.heard, k, Get(loaded, k)) == Get(TreeOf(end.disk), k))
  {
    MirrorIsTheVault(s, before, after);
    ClientEndsWith(s, before, after, vault, plugins, steps, TreeOf(IndexSystem.Run(s, before + after).disk));
  }

  /** When no stat was silent and the snapshot was not loaded too early, lag alone decides: the
      client is right exactly when every key whose last event was lost is right all the same, in
      particular when there is no such key. A later event about a key makes up for any loss. */
  lemma LaggingClientRecovers(
    s: State, before: seq<Label>, after: seq<Label>,
    vault: string, plugins: seq<PluginMsg>, steps: seq<Step>)
    requires NoLoss(s) && s.walk == None
    requires IndexSystem.Runs(s, before + after) && Diligent(s, before + after) && Told(s, before + after)
    requires var end := IndexSystem.Run(s, before + after);
      end.batch == None && Queued(end) == {}
      && (s.batch == None || Stores(before))
    requires Runs(Opened(vault, s.log, plugins), steps)
    requires var c := Run(Opened(vault, s.log, plugins), steps);
      c.events.log == IndexSystem.Run(s, before + after).log && c.events.next == |c.events.log|
    ensures IndexSystem.Runs(s, before)
    ensures var loaded, end := IndexSystem.Run(s, before).snapshot, IndexSystem.Run(s, before + after);
      var c := Run(Opened(vault, s.log, plugins), steps);
      && (Replay(loaded, EventsIn(c.conn.sent)) == TreeOf(end.disk) <==>
            forall k :: LastLost(c.heard, k) ==> LastDelivered(c.heard, k, Get(loaded, k)) == Get(TreeOf(end.disk), k))
      && ((forall k :: !LastLost(c.heard, k)) ==> Replay(loaded, EventsIn(c.conn.sent)) == TreeOf(end.disk))
  {
    ToldMirrorIsTheVault(s, before, after);
    LogExtends(s, before + after);
    RunConcat(s, before, after);
    var truth := TreeOf(IndexSystem.Run(s, before + after).disk);
    MirrorEndsWith(s, before, after, truth);
    ClientEndsWith(s, before, after, vault, plugins, steps, truth);
  }

  /** Without lag it comes down to the load: a client that opens its socket at any moment, during
      a batch or not, ends with the tree of the vault exactly when a batch was stored before it
      loaded the snapshot, or whatever the snapshot lagged behind is touched by an event again. */
  lemma PacedClientSeesTheVault(
    s: State, before: seq<Label>, after: seq<Label>,
    vault: string, plugins: seq<PluginMsg>, steps: seq<Step>)
    requires NoLoss(s) && s.walk == None
    requires IndexSystem.Runs(s, before + after) && Diligent(s, before + after) && Told(s, before + after)
    requires var end := IndexSystem.Run(s, before + after); end.batch == None && Queued(end) == {}
    requires var c0 := Opened(vault, s.log, plugins); Runs(c0, steps) && KeepsPace(c0, steps)
    requires var c := Run(Opened(vault, s.log, plugins), steps);
      c.conn.open && c.events.log == IndexSystem.Run(s, before + after).log && c.events.next == |c.events.log|
    ensures IndexSystem.Runs(s, before)
    ensures var loaded, end := IndexSystem.Run(s, before).snapshot, IndexSystem.Run(s, before + after);
      var received := EventsIn(Run(Opened(vault, s.log, plugins), steps).conn.sent);
      Replay(loaded, received) == TreeOf(end.disk) <==> Stores(before) || Caught(s, received)
  {
    EventsArrive(vault, s.log, plugins, steps);
    ToldMirrorIsTheVault(s, before, after);
  }

  /** With changes only between batches, no file turning into a directory, and a socket opened
      between batches, it always does. */
  lemma CalmClientSeesTheVault(
    s: State, before: seq<Label>, after: seq<Label>,
    vault: string, plugins: seq<PluginMsg>, steps: seq<Step>)
    requires Settled(s) && s.batch == None
    requires IndexSystem.Runs(s, before + after) && Diligent(s, before + after)
    requires CalmRun(s, before + after) && !MeetsFlip(s, before + after)
    requires var end := IndexSystem.Run(s, before + after); end.batch == None && Queued(end) == {}
    requires var c0 := Opened(vault, s.log, plugins); Runs(c0, steps) && KeepsPace(c0, steps)
    requires var c := Run(Opened(vault, s.log, plugins), steps);
      c.conn.open && c.events.log == IndexSystem.Run(s, before + after).log && c.events.next == |c.events.log|
    ensures IndexSystem.Runs(s, before)
    ensures var loaded, end := IndexSystem.Run(s, before).snapshot, IndexSystem.Run(s, before + after);
      Replay(loaded, EventsIn(Run(Opened(vault, s.log, plugins), steps).conn.sent)) == TreeOf(end.disk)
  {
    CalmRunTold(s, before + after);
    PacedClientSeesTheVault(s, before, after, vault, plugins, steps);
  }
}
