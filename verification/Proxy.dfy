/** The whole of `POST /api/proxy`: admission, the redirect loop, and the streamed answer. */
module Proxy {
  import opened Wrappers
  import opened Text
  import opened Addresses
  import opened Redirects
  import Base64

  datatype Mode = Any | Allowlist | Disabled

  /** A request to the proxy. Header names are lower-cased and valid, as the header map keeps
      them; a value that is no valid header text reads as nothing. */
  datatype Call = Call(
    url: Option<string>,
    verb: Option<string>,
    headers: seq<(string, Option<string>)>,
    body: Option<string>,
    binary: bool)

  /** What the handler leaves to libraries and to the network. `verb` upper-cases a method name
      and falls back on GET; `stream` is the body that comes with a reply, in chunks. */
  datatype Outside = Outside(
    parse: string -> Option<Url>,
    verb: string -> string,
    utf8: string -> seq<Byte>,
    stream: Redirects.Reply -> seq<Base64.Chunk>,
    world: World)

  datatype Response = Refused(status: nat) | Relayed(status: nat, headers: Headers, body: string)

  /** The URL to start from, or the status to refuse with. The list of hosts is consulted here
      and nowhere else. */
  function Admit(mode: Mode, hosts: seq<string>, call: Call, o: Outside): (r: Result<Url, nat>)
    ensures r.Ok? ==> Web(r.value) && mode != Disabled && call.url.Some? && o.parse(call.url.value) == Some(r.value)
  {
    if mode == Disabled then Err(403)
    else if call.url.None? || call.url.value == "" then Err(400)
    else
      match o.parse(call.url.value)
      case None => Err(400)
      case Some(u) =>
        if !Web(u) then Err(400)
        else if mode == Allowlist && (if u.host.Some? then u.host.value else "") !in hosts then Err(403)
        else Ok(u)
  }

  function BodyOf(call: Call, o: Outside): Result<Option<seq<Byte>>, nat> {
    match call.body
    case None => Ok(None)
    case Some(b) =>
      if !call.binary then Ok(Some(o.utf8(b)))
      else
        match Base64.Decode(b)
        case Some(bytes) => Ok(Some(bytes))
        case None => Err(400)
  }

  predicate Kept(name: string) { name != "host" && name != "content-length" }

  predicate Any(name: string) { true }

  /** The textual headers of the names that are kept; a later one of the same name replaces an
      earlier one. */
  function Gathered(headers: seq<(string, Option<string>)>, keep: string -> bool): Headers {
    if headers == [] then map[]
    else
      var (init, last) := (headers[..|headers| - 1], headers[|headers| - 1]);
      if keep(last.0) && last.1.Some? then Gathered(init, keep)[last.0 := last.1.value] else Gathered(init, keep)
  }

  /** The i-th header is the last textual one of its name. */
  predicate LastOf(headers: seq<(string, Option<string>)>, i: int, name: string) {
    && 0 <= i < |headers| && headers[i].0 == name && headers[i].1.Some?
    && forall j :: i < j < |headers| ==> headers[j].0 != name || headers[j].1 == None
  }

  lemma {:induction false} GatheredAt(headers: seq<(string, Option<string>)>, keep: string -> bool, name: string)
    ensures name in Gathered(headers, keep) <==> keep(name) && exists i :: LastOf(headers, i, name)
    ensures forall i :: keep(name) && LastOf(headers, i, name) ==> Gathered(headers, keep)[name] == headers[i].1.value
  {
    if headers != [] {
      var n := |headers| - 1;
      var init, last := headers[..n], headers[n];
      GatheredAt(init, keep, name);
      forall i ensures LastOf(headers, i, name) <==>
                       if last.0 == name && last.1.Some? then i == n else LastOf(init, i, name)
      {
        if LastOf(init, i, name) {
          assert headers[i] == init[i] && forall j :: i < j < n ==> headers[j] == init[j];
        }
        if LastOf(headers, i, name) && i != n {
          assert headers[i] == init[i] && forall j :: i < j < n ==> headers[j] == init[j];
        }
      }
      if last.0 == name && last.1.Some? {
        assert LastOf(headers, n, name);
      }
    }
  }

  method Gather(headers: seq<(string, Option<string>)>, keep: string -> bool) returns (r: Headers)
    ensures r == Gathered(headers, keep)
  {
    r := map[];
    for i := 0 to |headers|
      invariant r == Gathered(headers[..i], keep)
    {
      assert headers[..i + 1][..i] == headers[..i];
      var (name, value) := headers[i];
      if value.Some? {
        if keep(name) {
          r := r[name := value.value];
        }
      }
    }
    assert headers[..|headers|] == headers;
  }

  function Started(call: Call, url: Url, o: Outside): Hopping {
    First(url, o.verb(if call.verb.Some? then call.verb.value else "GET"), Gathered(call.headers, Kept))
  }

  /** How a call is answered, and by way of which requests. */
  ghost predicate Answers(mode: Mode, hosts: seq<string>, call: Call, o: Outside, r: Response, sent: seq<Request>) {
    var admitted := Admit(mode, hosts, call, o);
    var body := BodyOf(call, o);
    if admitted.Err? then r == Refused(admitted.error) && sent == []
    else if body.Err? then r == Refused(body.error) && sent == []
    else
      var run := Follow(o.world, Origin(admitted.value), Started(call, admitted.value, o), body.value);
      && sent == run.1
      && if run.0.Failed? then r == Refused(run.0.status)
         else if !Base64.Fine(o.stream(run.0.reply)) then r == Refused(502)
         else r == Relayed(run.0.reply.status, Gathered(run.0.reply.headers, Any),
                           Base64.Encode(Base64.Concat(o.stream(run.0.reply))))
  }

  method ProxyHandler(cfg: ProxyConfig, mode: Mode, hosts: seq<string>, call: Call, o: Outside)
    returns (r: Response, sent: seq<Request>)
    requires Agrees(cfg, o.world)
    ensures Answers(mode, hosts, call, o, r, sent)
  {
    sent := [];
    var admitted := Admit(mode, hosts, call, o);
    if admitted.Err? {
      return Refused(admitted.error), sent;
    }
    var verb := o.verb(if call.verb.Some? then call.verb.value else "GET");
    var headers := Gather(call.headers, Kept);
    var body := BodyOf(call, o);
    if body.Err? {
      return Refused(body.error), sent;
    }
    var outcome;
    outcome, sent := ProxyRequests(cfg, o.world, admitted.value, verb, headers, body.value);
    if outcome.Failed? {
      return Refused(outcome.status), sent;
    }
    var answered := Gather(outcome.reply.headers, Any);
    var encoded := Base64.EncodeStream(o.stream(outcome.reply));
    if encoded.Err? {
      return Refused(502), sent;
    }
    r := Relayed(outcome.reply.status, answered, encoded.value);
  }

  /** The configuration as the server makes it from its environment, and one call served with
      it: whatever the network does, each request goes to a host that had just resolved to
      addresses that are public or that an entry of the list admits. */
  method ProxyFromEnv(mode: Mode, hosts: seq<string>, entries: Option<string>, parse: Parsers, call: Call, o: Outside)
    returns (r: Response, sent: seq<Request>)
    requires forall a :: o.world.listed(a) <==> entries.Some? && SomeAdmits(parse, ParseList(entries.value), a)
    ensures Answers(mode, hosts, call, o, r, sent)
    ensures forall i :: 0 <= i < |sent| ==> AllPublicOrAdmitted(o.world.hop(i).dns, entries, parse)
  {
    var cfg := new ProxyConfig();
    if entries.Some? {
      cfg.SetAllowPrivate(entries.value, parse);
    }
    r, sent := ProxyHandler(cfg, mode, hosts, call, o);
    RequestsReachable(mode, hosts, call, o, r, sent);
    forall i | 0 <= i < |sent| ensures AllPublicOrAdmitted(o.world.hop(i).dns, entries, parse) {
      assert Reachable(o.world, i);
    }
  }

  ghost predicate AllPublicOrAdmitted(dns: Option<seq<IpAddr>>, entries: Option<string>, parse: Parsers) {
    && dns.Some? && dns.value != []
    && forall a :: a in dns.value ==>
         !IsPrivate(a) || (entries.Some? && SomeAdmits(parse, ParseList(entries.value), a))
  }

  /** However a call is answered, no request was made without the address check. */
  lemma RequestsReachable(mode: Mode, hosts: seq<string>, call: Call, o: Outside, r: Response, sent: seq<Request>)
    requires Answers(mode, hosts, call, o, r, sent)
    ensures forall i :: 0 <= i < |sent| ==> Web(sent[i].url) && Reachable(o.world, i)
  {
    var admitted, body := Admit(mode, hosts, call, o), BodyOf(call, o);
    if admitted.Ok? && body.Ok? {
      var start := Started(call, admitted.value, o);
      RequestsChecked(o.world, admitted.value, start.verb, start.headers, body.value);
    }
  }

  /** What a caller can rely on when an answer is relayed: the proxy was on, the first request
      went to the URL that was asked for, on a listed host where a list is kept; between one and
      six requests were made, each to a host with only public or listed addresses; status and
      headers are those of the reply to the last of them, and the text decodes to its whole
      body, of at most 50 MiB. */
  lemma RelayedAnswer(mode: Mode, hosts: seq<string>, call: Call, o: Outside, r: Response, sent: seq<Request>)
    requires Answers(mode, hosts, call, o, r, sent) && r.Relayed?
    ensures mode != Disabled && 1 <= |sent| <= 6
    ensures call.url.Some? && o.parse(call.url.value) == Some(sent[0].url)
    ensures mode == Allowlist ==> sent[0].url.host.Some? && sent[0].url.host.value in hosts
    ensures forall i :: 0 <= i < |sent| ==> Web(sent[i].url) && Reachable(o.world, i)
    ensures var reply := o.world.hop(|sent| - 1).reply;
      && reply.Some? && r.status == reply.value.status && TakenFrom(r.headers, reply.value.headers, {})
      && Base64.Fine(o.stream(reply.value))
      && Base64.Decode(r.body) == Some(Base64.Concat(o.stream(reply.value)))
      && |Base64.Concat(o.stream(reply.value))| <= Base64.MAX_RESPONSE_BYTES
  {
    var url := Admit(mode, hosts, call, o).value;
    var body := BodyOf(call, o).value;
    var start := Started(call, url, o);
    var (outcome, requests) := Follow(o.world, Origin(url), start, body);
    RequestsChecked(o.world, url, start.verb, start.headers, body);
    CheckedAnswer(o.world, url, body, outcome.reply, sent);
    StreamDecodes(o.stream(outcome.reply));
    GatheredAll(outcome.reply.headers, Any, {});
  }

  /** `m` has the names that have a textual value, but for some, each with its last one. */
  ghost predicate TakenFrom(m: Headers, headers: seq<(string, Option<string>)>, skipped: set<string>) {
    forall name ::
      && (name in m <==> name !in skipped && exists i :: LastOf(headers, i, name))
      && forall i :: name in m && LastOf(headers, i, name) ==> Some(m[name]) == headers[i].1
  }

  lemma GatheredAll(headers: seq<(string, Option<string>)>, keep: string -> bool, skipped: set<string>)
    requires forall name :: keep(name) <==> name !in skipped
    ensures TakenFrom(Gathered(headers, keep), headers, skipped)
  {
    forall name
      ensures name in Gathered(headers, keep) <==> name !in skipped && exists i :: LastOf(headers, i, name)
      ensures forall i :: name in Gathered(headers, keep) && LastOf(headers, i, name) ==>
                Some(Gathered(headers, keep)[name]) == headers[i].1
    {
      GatheredAt(headers, keep, name);
    }
  }

  // ---- what is asked of the network ----

  /** The body that is sent on: none, the text, or the bytes whose Base64 the text is. */
  predicate BodyFor(call: Call, o: Outside, body: Option<seq<Byte>>) {
    match call.body
    case None => body == None
    case Some(b) => body.Some? && if call.binary then Base64.Encode(body.value) == b else body.value == o.utf8(b)
  }

  /** A call whose body claims to be Base64 and is not. */
  ghost predicate BadBody(call: Call) {
    call.binary && call.body.Some? && forall bytes :: Base64.Encode(bytes) != call.body.value
  }

  lemma BodyMeans(call: Call, o: Outside)
    ensures match BodyOf(call, o) case Ok(body) => BodyFor(call, o, body) case Err(code) => code == 400 && BadBody(call)
    ensures BodyOf(call, o).Ok? ==> !BadBody(call)
  {
    if call.binary && call.body.Some? {
      var b := call.body.value;
      if Base64.Decode(b).Some? {
        Base64.EncodeDecode(b);
      } else {
        forall bytes ensures Base64.Encode(bytes) != b {
          Base64.DecodeEncode(bytes);
        }
      }
    }
  }

  /** Every request of a call has the body of the call, its method until a reply turns it into GET,
      and its headers but Host and Content-Length: all of them while requests stay with the first
      scheme, host and port, and from then on all but Authorization and Cookie. */
  lemma RequestsMean(mode: Mode, hosts: seq<string>, call: Call, o: Outside, r: Response, sent: seq<Request>, i: nat)
    requires Answers(mode, hosts, call, o, r, sent) && i < |sent|
    ensures call.url.Some? && o.parse(call.url.value) == Some(sent[0].url) && BodyFor(call, o, sent[i].body)
    ensures var verb := o.verb(if call.verb.Some? then call.verb.value else "GET");
      sent[i].verb == if Downgraded(o.world, i, verb) then "GET" else verb
    ensures var away := LeftTheSite(sent, sent[0].url, i);
      TakenFrom(sent[i].headers, call.headers,
                {"host", "content-length"} + if away then {"authorization", "cookie"} else {})
  {
    var url, body := Admit(mode, hosts, call, o).value, BodyOf(call, o).value;
    var start := Started(call, url, o);
    RequestsChecked(o.world, url, start.verb, start.headers, body);
    BodyMeans(call, o);
    MethodsDegradeToGet(o.world, url, start.verb, start.headers, body, i);
    CredentialsStayHome(o.world, url, start.verb, start.headers, body, i);
    GatheredAll(call.headers, Kept, {"host", "content-length"});
    StillTaken(start.headers, sent[i].headers, call.headers, LeftTheSite(sent, url, i));
  }

  lemma StillTaken(m: Headers, m': Headers, headers: seq<(string, Option<string>)>, away: bool)
    requires TakenFrom(m, headers, {"host", "content-length"})
    requires forall name :: name in m' <==> name in m && !((name == "authorization" || name == "cookie") && away)
    requires forall name :: name in m' ==> m'[name] == m[name]
    ensures TakenFrom(m', headers, {"host", "content-length"} + if away then {"authorization", "cookie"} else {})
  {
  }

  /** Why a call is refused before anything is asked, in order. */
  ghost predicate TurnedAway(mode: Mode, hosts: seq<string>, call: Call, o: Outside, status: nat) {
    if mode == Disabled then status == 403
    else if call.url.None? || call.url.value == "" || o.parse(call.url.value).None? then status == 400
    else
      var u := o.parse(call.url.value).value;
      if u.scheme != "http" && u.scheme != "https" then status == 400
      else if mode == Allowlist && (if u.host.Some? then u.host.value else "") !in hosts then status == 403
      else status == 400 && BadBody(call)
  }

  /** Every refusal has its reason: the call itself, or the lookup or the reply the loop broke off
      at, or a body of the last reply that cannot be read or is too large. */
  lemma RefusalMeans(mode: Mode, hosts: seq<string>, call: Call, o: Outside, r: Response, sent: seq<Request>)
    requires Answers(mode, hosts, call, o, r, sent)
    ensures (exists status :: TurnedAway(mode, hosts, call, o, status)) ==>
      r.Refused? && TurnedAway(mode, hosts, call, o, r.status) && sent == []
    ensures r.Refused? ==>
      || TurnedAway(mode, hosts, call, o, r.status)
      || (call.url.Some? && o.parse(call.url.value).Some?
          && BrokenOff(o.world, o.parse(call.url.value).value, sent, r.status))
      || (r.status == 502 && sent != [] && o.world.hop(|sent| - 1).reply.Some?
          && !Base64.Fine(o.stream(o.world.hop(|sent| - 1).reply.value)))
  {
    AdmitMeans(mode, hosts, call, o);
    var admitted, body := Admit(mode, hosts, call, o), BodyOf(call, o);
    if admitted.Ok? && body.Ok? {
      var start := Started(call, admitted.value, o);
      var (outcome, requests) := Follow(o.world, Origin(admitted.value), start, body.value);
      RequestsChecked(o.world, admitted.value, start.verb, start.headers, body.value);
      assert sent == requests && Checked(o.world, admitted.value, body.value, outcome, sent);
    }
  }

  lemma AdmitMeans(mode: Mode, hosts: seq<string>, call: Call, o: Outside)
    ensures var admitted, body := Admit(mode, hosts, call, o), BodyOf(call, o);
      if admitted.Err? then TurnedAway(mode, hosts, call, o, admitted.error)
      else if body.Err? then TurnedAway(mode, hosts, call, o, body.error)
      else forall status :: !TurnedAway(mode, hosts, call, o, status)
  {
    BodyMeans(call, o);
  }

  // ---- the list of hosts ----

  predicate OnList(hosts: seq<string>, u: Url) { u.host.Some? && u.host.value in hosts }

  /** The n-th reply, to a request for `here`, redirects to an http or https URL off the list. */
  ghost predicate LeadsOff(w: World, n: nat, here: Url, hosts: seq<string>) {
    exists next :: LedTo(w, n, here, next) && Web(next) && !OnList(hosts, next)
  }

  ghost predicate AllOnList(hosts: seq<string>, sent: seq<Request>) {
    forall i :: 0 <= i < |sent| ==> OnList(hosts, sent[i].url)
  }

  /** No reply that was followed leads off the list. */
  ghost predicate NoneLeadsOff(w: World, hosts: seq<string>, sent: seq<Request>) {
    forall n :: 0 <= n < |sent| - 1 ==> !LeadsOff(w, n, sent[n].url, hosts)
  }

  /** The list binds the first request. All requests stay on it exactly when no reply that was
      followed leads off it. */
  lemma StaysOnTheList(hosts: seq<string>, call: Call, o: Outside, r: Response, sent: seq<Request>)
    requires Answers(Allowlist, hosts, call, o, r, sent)
    ensures sent != [] ==> OnList(hosts, sent[0].url)
    ensures AllOnList(hosts, sent) <==> NoneLeadsOff(o.world, hosts, sent)
  {
    var admitted, body := Admit(Allowlist, hosts, call, o), BodyOf(call, o);
    if admitted.Ok? && body.Ok? {
      var start := Started(call, admitted.value, o);
      var (outcome, requests) := Follow(o.world, Origin(admitted.value), start, body.value);
      RequestsChecked(o.world, admitted.value, start.verb, start.headers, body.value);
      HopsOnTheList(o.world, admitted.value, hosts, body.value, outcome, sent);
    }
  }

  lemma HopsOnTheList(
    w: World, url: Url, hosts: seq<string>, body: Option<seq<Byte>>, outcome: Outcome, sent: seq<Request>)
    requires Checked(w, url, body, outcome, sent) && (sent != [] && url.host.Some? ==> OnList(hosts, url))
    ensures sent != [] ==> OnList(hosts, sent[0].url)
    ensures AllOnList(hosts, sent) <==> NoneLeadsOff(w, hosts, sent)
  {
    if AllOnList(hosts, sent) {
      forall n | 0 <= n < |sent| - 1 ensures !LeadsOff(w, n, sent[n].url, hosts) {
        var i := n + 1;
        HopOnTheList(w, i - 1, sent[i - 1].url, sent[i].url, hosts);
      }
    }
    if NoneLeadsOff(w, hosts, sent) {
      forall i | 0 <= i < |sent| ensures OnList(hosts, sent[i].url) {
        if i > 0 {
          HopOnTheList(w, i - 1, sent[i - 1].url, sent[i].url, hosts);
        }
      }
    }
  }

  lemma HopOnTheList(w: World, n: nat, here: Url, next: Url, hosts: seq<string>)
    requires LedTo(w, n, here, next) && Web(next)
    ensures LeadsOff(w, n, here, hosts) <==> !OnList(hosts, next)
  {
    forall other | LedTo(w, n, here, other) ensures other == next {
      LedToLocation(w, n, here, other);
      LedToLocation(w, n, here, next);
    }
  }

  /** And such a reply is followed: if the next host passes the address check, it is asked,
      whether it is listed or not. */
  lemma RedirectLeavesTheList(hosts: seq<string>, call: Call, o: Outside, r: Response, sent: seq<Request>, next: Url)
    requires Answers(Allowlist, hosts, call, o, r, sent)
    requires Admit(Allowlist, hosts, call, o).Ok? && BodyOf(call, o).Ok?
    requires var url := Admit(Allowlist, hosts, call, o).value;
      && CheckAddress(o.world, 0, url) == None && LedTo(o.world, 0, url, next)
      && Web(next) && !OnList(hosts, next) && CheckAddress(o.world, 1, next) == None
    ensures |sent| >= 2 && sent[1].url == next && !OnList(hosts, sent[1].url)
  {
    var url := Admit(Allowlist, hosts, call, o).value;
    var start := Started(call, url, o);
    LedToLocation(o.world, 0, url, next);
    var h := Redirected(o.world, Origin(url), start, o.world.hop(0).reply.value).value;
    assert h.current == next && h.hops == 1;
    assert Follow(o.world, Origin(url), h, BodyOf(call, o).value).1 != [];
  }

  lemma CheckedAnswer(w: World, url: Url, body: Option<seq<Byte>>, reply: Redirects.Reply, sent: seq<Request>)
    requires Checked(w, url, body, Answered(reply), sent)
    ensures 1 <= |sent| <= 6 && sent[0].url == url && url.host.Some?
    ensures forall i :: 0 <= i < |sent| ==> Web(sent[i].url) && Reachable(w, i)
    ensures w.hop(|sent| - 1).reply == Some(reply)
  {
  }

  lemma StreamDecodes(chunks: seq<Base64.Chunk>)
    ensures Base64.Decode(Base64.Encode(Base64.Concat(chunks))) == Some(Base64.Concat(chunks))
    ensures Base64.Fine(chunks) ==> |Base64.Concat(chunks)| <= Base64.MAX_RESPONSE_BYTES
  {
    Base64.DecodeEncode(Base64.Concat(chunks));
    Base64.ConcatLength(chunks);
  }
}
