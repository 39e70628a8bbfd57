/** The proxy's redirect loop, over arbitrary name resolution and upstream replies. */
module Redirects {
  import opened Wrappers
  import opened Sequences
  import opened Addresses

  const MAX_REDIRECTS: nat := 5

  /** A parsed URL; `port` is the explicit port or the scheme's default. */
  datatype Url = Url(scheme: string, host: Option<string>, port: nat, rest: string)

  predicate Web(u: Url) { u.scheme == "http" || u.scheme == "https" }

  /** Scheme, host and port. */
  type SiteOrigin = (string, Option<string>, nat)

  function Origin(u: Url): SiteOrigin { (u.scheme, u.host, u.port) }

  type Headers = map<string, string>

  datatype Request = Request(url: Url, verb: string, headers: Headers, body: Option<seq<Byte>>)

  /** Header names are lower-cased; a value that is not text reads as nothing. */
  datatype Reply = Reply(status: nat, headers: seq<(string, Option<string>)>)

  /** The first `location` header, if its value is text. */
  function Location(headers: seq<(string, Option<string>)>): Option<string> {
    if headers == [] then None
    else if headers[0].0 == "location" then headers[0].1
    else Location(headers[1..])
  }

  /** What the network does in one iteration: the addresses a lookup yields, and the reply to
      the request, either of which may fail. */
  datatype Hop = Hop(dns: Option<seq<IpAddr>>, reply: Option<Reply>)

  /** `listed` is the allow list of private addresses. */
  datatype World = World(
    hop: nat -> Hop,
    join: (Url, string) -> Option<Url>,
    listed: IpAddr -> bool)

  /** A public address always passes, a private one only when it is listed. */
  predicate Passes(w: World, a: IpAddr) { !IsPrivate(a) || w.listed(a) }

  ghost predicate Agrees(cfg: ProxyConfig, w: World)
    reads cfg
  {
    forall a :: cfg.Listed(a) <==> w.listed(a)
  }

  datatype Outcome = Failed(status: nat) | Answered(reply: Reply)

  /** `addr_ok`: the status to fail with, or nothing. One bad address is enough to refuse. */
  function CheckAddress(w: World, n: nat, u: Url): Option<nat> {
    if u.host == None then Some(400)
    else
      match w.hop(n).dns
      case None => Some(502)
      case Some(addrs) =>
        if exists a :: a in addrs && !Passes(w, a) then Some(403)
        else if addrs == [] then Some(502) else None
  }

  /** The check of one URL: every address its host resolves to is put to the configuration. */
  method AddrOk(cfg: ProxyConfig, w: World, n: nat, u: Url) returns (refused: Option<nat>)
    requires Agrees(cfg, w)
    ensures refused == CheckAddress(w, n, u)
    ensures match refused case None => u.host.Some? && Reachable(w, n) case Some(status) => Barred(w, n, u, status)
  {
    if u.host == None {
      return Some(400);
    }
    var looked := w.hop(n).dns;
    if looked == None {
      return Some(502);
    }
    var addrs := looked.value;
    var any := false;
    for i := 0 to |addrs|
      invariant any <==> i > 0
      invariant forall a :: a in addrs[..i] ==> Passes(w, a)
    {
      any := true;
      var allowed := cfg.AddrAllowed(addrs[i]);
      if !allowed {
        assert addrs[i] in addrs;
        return Some(403);
      }
      assert addrs[..i + 1] == addrs[..i] + [addrs[i]];
    }
    assert addrs[..|addrs|] == addrs;
    refused := if any then None else Some(502);
  }

  function Strip(h: Headers): Headers { h - {"authorization", "cookie"} }

  predicate Downgrades(status: nat, verb: string) {
    status == 303 || ((status == 301 || status == 302) && verb != "HEAD")
  }

  datatype Hopping = Hopping(verb: string, headers: Headers, current: Url, hops: nat)

  /** The next iteration, when the reply is a redirect that is followed. */
  function Redirected(w: World, origin: SiteOrigin, h: Hopping, r: Reply): Option<Hopping> {
    if 300 <= r.status < 400 && h.hops < MAX_REDIRECTS && Location(r.headers).Some? then
      match w.join(h.current, Location(r.headers).value)
      case Some(next) =>
        if Web(next) then
          Some(Hopping(
            if Downgrades(r.status, h.verb) then "GET" else h.verb,
            if Origin(next) != origin then Strip(h.headers) else h.headers,
            next, h.hops + 1))
        else None
      case None => None
    else None
  }

  /** The outcome, and the requests sent on the way. */
  function Follow(w: World, origin: SiteOrigin, h: Hopping, body: Option<seq<Byte>>): (Outcome, seq<Request>)
    requires h.hops <= MAX_REDIRECTS
    decreases MAX_REDIRECTS - h.hops
  {
    match CheckAddress(w, h.hops, h.current)
    case Some(status) => (Failed(status), [])
    case None =>
      var sent := [Request(h.current, h.verb, h.headers, body)];
      match w.hop(h.hops).reply
      case None => (Failed(502), sent)
      case Some(r) =>
        match Redirected(w, origin, h, r)
        case None => (Answered(r), sent)
        case Some(h') =>
          var rest := Follow(w, origin, h', body);
          (rest.0, sent + rest.1)
  }

  function First(url: Url, verb: string, headers: Headers): Hopping { Hopping(verb, headers, url, 0) }

  method ProxyRequests(cfg: ProxyConfig, w: World, url: Url, verb0: string, headers0: Headers, body: Option<seq<Byte>>)
    returns (outcome: Outcome, sent: seq<Request>)
    requires Agrees(cfg, w)
    ensures (outcome, sent) == Follow(w, Origin(url), First(url, verb0, headers0), body)
  {
    var origin := Origin(url);
    var verb, headers, current, hops := verb0, headers0, url, 0;
    sent := [];
    ghost var whole := Follow(w, origin, First(url, verb0, headers0), body);
    assert [] + whole.1 == whole.1;
    while true
      invariant hops <= MAX_REDIRECTS
      invariant var rest := Follow(w, origin, Hopping(verb, headers, current, hops), body);
        whole == (rest.0, sent + rest.1)
      decreases MAX_REDIRECTS - hops
    {
      var refused := AddrOk(cfg, w, hops, current);
      if refused.Some? {
        assert sent + [] == sent;
        return Failed(refused.value), sent;
      }
      ghost var h := Hopping(verb, headers, current, hops);
      ghost var before := sent;
      sent := sent + [Request(current, verb, headers, body)];
      var reply := w.hop(hops).reply;
      if reply == None {
        return Failed(502), sent;
      }
      var r := reply.value;
      if 300 <= r.status < 400 && hops < MAX_REDIRECTS {
        var location := Location(r.headers);
        if location.Some? {
          var next := w.join(current, location.value);
          if next.Some? {
            if Web(next.value) {
              if Origin(next.value) != origin {
                headers := headers - {"authorization", "cookie"};
              }
              if r.status == 303 || ((r.status == 301 || r.status == 302) && verb != "HEAD") {
                verb := "GET";
              }
              current := next.value;
              hops := hops + 1;
              ConcatAssociates(before, [Request(h.current, h.verb, h.headers, body)],
                               Follow(w, origin, Hopping(verb, headers, current, hops), body).1);
              continue;
            }
          }
        }
      }
      return Answered(r), sent;
    }
  }

  // ---- what every run of the loop satisfies ----

  /** Some request up to the i-th went to another origin than the first. */
  predicate Strayed(sent: seq<Request>, origin: SiteOrigin, i: nat) {
    exists j :: 0 <= j <= i < |sent| && Origin(sent[j].url) != origin
  }

  predicate ReplyDowngrades(w: World, n: nat, verb: string) {
    var r := w.hop(n).reply;
    r.Some? && (r.value.status == 303 || (r.value.status in {301, 302} && verb != "HEAD"))
  }

  /** Some reply before the i-th request turned the method into GET. */
  predicate Downgraded(w: World, i: nat, verb: string) {
    exists n :: 0 <= n < i && ReplyDowngrades(w, n, verb)
  }

  /** A run of the loop, iteration by iteration: the state in which each request was sent, how
      each state follows from the one before, and why the run ended as it did. */
  ghost predicate Trace(w: World, origin: SiteOrigin, h: Hopping, body: Option<seq<Byte>>,
                        outcome: Outcome, sent: seq<Request>, hs: seq<Hopping>) {
    && |hs| == |sent| && (hs != [] ==> hs[0] == h)
    && (forall i :: 0 <= i < |hs| ==>
          && sent[i] == Request(hs[i].current, hs[i].verb, hs[i].headers, body)
          && hs[i].hops == h.hops + i <= MAX_REDIRECTS
          && CheckAddress(w, hs[i].hops, hs[i].current) == None)
    && (forall i :: 0 < i < |hs| ==> Moves(w, origin, hs[i - 1], hs[i]))
    && (outcome.Answered? ==>
          && hs != [] && w.hop(hs[|hs| - 1].hops).reply == Some(outcome.reply)
          && Redirected(w, origin, hs[|hs| - 1], outcome.reply) == None)
    && (outcome.Failed? ==> FailsAfter(w, origin, h, hs, outcome.status))
  }

  /** The check refuses the first URL or the next one, or the last request has no reply. */
  ghost predicate FailsAfter(w: World, origin: SiteOrigin, h: Hopping, hs: seq<Hopping>, status: nat) {
    if hs == [] then CheckAddress(w, h.hops, h.current) == Some(status)
    else
      var last := hs[|hs| - 1];
      || (w.hop(last.hops).reply == None && status == 502)
      || exists next :: Moves(w, origin, last, next) && CheckAddress(w, next.hops, next.current) == Some(status)
  }

  predicate Moves(w: World, origin: SiteOrigin, h: Hopping, h': Hopping) {
    w.hop(h.hops).reply.Some? && Redirected(w, origin, h, w.hop(h.hops).reply.value) == Some(h')
  }

  lemma {:induction false} FollowTrace(w: World, origin: SiteOrigin, h: Hopping, body: Option<seq<Byte>>)
    returns (hs: seq<Hopping>)
    requires h.hops <= MAX_REDIRECTS
    ensures var (outcome, sent) := Follow(w, origin, h, body);
      Trace(w, origin, h, body, outcome, sent, hs)
    decreases MAX_REDIRECTS - h.hops
  {
    hs := [];
    if CheckAddress(w, h.hops, h.current) == None {
      hs := [h];
      var reply := w.hop(h.hops).reply;
      if reply.Some? && Redirected(w, origin, h, reply.value).Some? {
        var h' := Redirected(w, origin, h, reply.value).value;
        var rest := FollowTrace(w, origin, h', body);
        var (outcome, sent') := Follow(w, origin, h', body);
        TraceGrows(w, origin, h, h', body, outcome, sent', rest);
        hs := [h] + rest;
      }
    }
  }

  lemma TraceGrows(w: World, origin: SiteOrigin, h: Hopping, h': Hopping, body: Option<seq<Byte>>,
                   outcome: Outcome, sent: seq<Request>, hs: seq<Hopping>)
    requires Trace(w, origin, h', body, outcome, sent, hs) && Moves(w, origin, h, h')
    requires CheckAddress(w, h.hops, h.current) == None
    ensures Trace(w, origin, h, body, outcome, [Request(h.current, h.verb, h.headers, body)] + sent, [h] + hs)
  {
  }

  /** The n-th lookup gave some addresses, all of them public or listed. */
  predicate Reachable(w: World, n: nat) {
    && w.hop(n).dns.Some? && w.hop(n).dns.value != []
    && forall a :: a in w.hop(n).dns.value ==> !IsPrivate(a) || w.listed(a)
  }

  /** The n-th lookup speaks against `u`, and how that is reported. */
  predicate Barred(w: World, n: nat, u: Url, status: nat) {
    if u.host == None then status == 400
    else if w.hop(n).dns == None || w.hop(n).dns.value == [] then status == 502
    else status == 403 && exists a :: a in w.hop(n).dns.value && IsPrivate(a) && !w.listed(a)
  }

  /** After these requests comes one for `u`, if the check lets it pass. */
  ghost predicate ComesNext(w: World, url: Url, sent: seq<Request>, u: Url) {
    if sent == [] then u == url else |sent| < 6 && Web(u) && LedTo(w, |sent| - 1, sent[|sent| - 1].url, u)
  }

  /** Why a run failed: the last request had no reply, or the lookup for the next one bars it. */
  ghost predicate BrokenOff(w: World, url: Url, sent: seq<Request>, status: nat) {
    || (sent != [] && w.hop(|sent| - 1).reply == None && status == 502)
    || exists u :: ComesNext(w, url, sent, u) && Barred(w, |sent|, u, status)
  }

  /** At most six requests, each to an http or https URL whose host had just resolved to
      addresses that are all public or listed, along a chain of followed locations. An answer is
      the reply to the last request: no redirect, or one that cannot be followed, or one too
      many. A failure has one of the two reasons above. */
  ghost predicate Checked(w: World, url: Url, body: Option<seq<Byte>>, outcome: Outcome, sent: seq<Request>) {
    && |sent| <= 6 && (sent != [] ==> sent[0].url == url)
    && (forall i :: 0 <= i < |sent| ==>
          Web(sent[i].url) && sent[i].url.host.Some? && Reachable(w, i) && sent[i].body == body)
    && (forall i :: 0 < i < |sent| ==> LedTo(w, i - 1, sent[i - 1].url, sent[i].url))
    && (outcome.Answered? ==>
          && sent != [] && w.hop(|sent| - 1).reply == Some(outcome.reply)
          && (|sent| < 6 ==> !exists next :: Web(next) && LedTo(w, |sent| - 1, sent[|sent| - 1].url, next)))
    && (outcome.Failed? ==> BrokenOff(w, url, sent, outcome.status))
  }

  lemma RequestsChecked(w: World, url: Url, verb0: string, headers0: Headers, body: Option<seq<Byte>>)
    requires Web(url)
    ensures var (outcome, sent) := Follow(w, Origin(url), First(url, verb0, headers0), body);
      Checked(w, url, body, outcome, sent)
  {
    var (outcome, sent) := Follow(w, Origin(url), First(url, verb0, headers0), body);
    var hs := FollowTrace(w, Origin(url), First(url, verb0, headers0), body);
    TraceChecked(w, Origin(url), First(url, verb0, headers0), body, outcome, sent, hs);
  }

  lemma CheckedReachable(w: World, n: nat, u: Url)
    ensures CheckAddress(w, n, u) == None <==> u.host.Some? && Reachable(w, n)
    ensures forall status: nat :: CheckAddress(w, n, u) == Some(status) <==> Barred(w, n, u, status)
  {
  }

  lemma TraceChecked(w: World, origin: SiteOrigin, h: Hopping, body: Option<seq<Byte>>,
                     outcome: Outcome, sent: seq<Request>, hs: seq<Hopping>)
    requires Trace(w, origin, h, body, outcome, sent, hs) && Web(h.current) && h.hops == 0
    ensures Checked(w, h.current, body, outcome, sent)
  {
    assert hs != [] ==> hs[|hs| - 1].hops == |hs| - 1 <= MAX_REDIRECTS;
    forall i | 0 <= i < |hs| ensures Web(hs[i].current) && hs[i].current.host.Some? && Reachable(w, i) {
      if i > 0 { assert Moves(w, origin, hs[i - 1], hs[i]); }
      CheckedReachable(w, i, hs[i].current);
    }
    forall i | 0 < i < |sent| ensures LedTo(w, i - 1, sent[i - 1].url, sent[i].url) {
      assert Moves(w, origin, hs[i - 1], hs[i]);
      LedToLocation(w, i - 1, sent[i - 1].url, sent[i].url);
    }
    if outcome.Answered? && |sent| < 6 {
      var last := sent[|sent| - 1].url;
      forall next | Web(next) ensures !LedTo(w, |sent| - 1, last, next) {
        LedToLocation(w, |sent| - 1, last, next);
      }
    }
    if outcome.Failed? {
      FailureMeans(w, origin, h, hs, sent, outcome.status);
    }
  }

  lemma FailureMeans(w: World, origin: SiteOrigin, h: Hopping, hs: seq<Hopping>, sent: seq<Request>, status: nat)
    requires FailsAfter(w, origin, h, hs, status) && h.hops == 0 && |sent| == |hs|
    requires hs != [] ==> hs[|hs| - 1].hops == |hs| - 1 && sent[|hs| - 1].url == hs[|hs| - 1].current
    ensures BrokenOff(w, h.current, sent, status)
  {
    if hs == [] {
      CheckedReachable(w, 0, h.current);
      assert ComesNext(w, h.current, sent, h.current);
    } else {
      var last := hs[|hs| - 1];
      if !(w.hop(last.hops).reply == None && status == 502) {
        var next :| Moves(w, origin, last, next) && CheckAddress(w, next.hops, next.current) == Some(status);
        LedToLocation(w, last.hops, last.current, next.current);
        CheckedReachable(w, next.hops, next.current);
        assert ComesNext(w, h.current, sent, next.current);
      }
    }
  }

  /** The n-th reply is a redirect whose location, seen from `here`, is `next`. */
  ghost predicate LedTo(w: World, n: nat, here: Url, next: Url) {
    var r := w.hop(n).reply;
    && r.Some? && 300 <= r.value.status < 400
    && exists i :: LocatedAt(r.value.headers, i)
           && r.value.headers[i].1.Some? && w.join(here, r.value.headers[i].1.value) == Some(next)
  }

  /** The i-th header is the first of the name `location`. */
  predicate LocatedAt(headers: seq<(string, Option<string>)>, i: int) {
    && 0 <= i < |headers| && headers[i].0 == "location"
    && forall j :: 0 <= j < i ==> headers[j].0 != "location"
  }

  lemma {:induction false} LocationMeans(headers: seq<(string, Option<string>)>)
    ensures forall i :: LocatedAt(headers, i) ==> Location(headers) == headers[i].1
    ensures Location(headers).Some? ==> exists i :: LocatedAt(headers, i)
  {
    if headers != [] && headers[0].0 != "location" {
      LocationMeans(headers[1..]);
      forall i | LocatedAt(headers, i) ensures Location(headers) == headers[i].1 {
        assert LocatedAt(headers[1..], i - 1) by {
          assert forall j :: 0 <= j < i - 1 ==> headers[1..][j] == headers[j + 1];
        }
      }
      if Location(headers).Some? {
        var i :| LocatedAt(headers[1..], i);
        assert forall j :: 0 < j <= i + 1 ==> headers[j] == headers[1..][j - 1];
        assert LocatedAt(headers, i + 1);
      }
    } else if headers != [] {
      assert LocatedAt(headers, 0);
    }
  }

  lemma LedToLocation(w: World, n: nat, here: Url, next: Url)
    ensures LedTo(w, n, here, next) <==>
              var r := w.hop(n).reply;
              && r.Some? && 300 <= r.value.status < 400 && Location(r.value.headers).Some?
              && w.join(here, Location(r.value.headers).value) == Some(next)
  {
    if w.hop(n).reply.Some? {
      var headers := w.hop(n).reply.value.headers;
      LocationMeans(headers);
      if i :| LocatedAt(headers, i) {
        assert Location(headers) == headers[i].1;
      }
    }
  }

  lemma {:induction false} TraceHeaders(w: World, origin: SiteOrigin, h: Hopping, body: Option<seq<Byte>>,
                                        outcome: Outcome, sent: seq<Request>, hs: seq<Hopping>, i: nat)
    requires Trace(w, origin, h, body, outcome, sent, hs) && Origin(h.current) == origin && i < |hs|
    ensures hs[i].headers == if Strayed(sent, origin, i) then Strip(h.headers) else h.headers
  {
    if i > 0 {
      TraceHeaders(w, origin, h, body, outcome, sent, hs, i - 1);
      assert Moves(w, origin, hs[i - 1], hs[i]);
      assert Strip(Strip(h.headers)) == Strip(h.headers);
      assert Strayed(sent, origin, i) <==> Strayed(sent, origin, i - 1) || Origin(sent[i].url) != origin;
    }
  }

  /** Some request up to the i-th went to another scheme, host or port than the first. */
  predicate LeftTheSite(sent: seq<Request>, url: Url, i: nat) {
    exists j :: 0 <= j <= i < |sent| &&
      (sent[j].url.scheme != url.scheme || sent[j].url.host != url.host || sent[j].url.port != url.port)
  }

  /** Each request carries the caller's headers, until the loop first leaves the original
      origin; from then on Authorization and Cookie are gone for good and nothing else is. */
  lemma CredentialsStayHome(w: World, url: Url, verb0: string, headers0: Headers, body: Option<seq<Byte>>, i: nat)
    requires i < |Follow(w, Origin(url), First(url, verb0, headers0), body).1|
    ensures var sent := Follow(w, Origin(url), First(url, verb0, headers0), body).1;
      && (forall name :: name in sent[i].headers <==>
            name in headers0 && !((name == "authorization" || name == "cookie") && LeftTheSite(sent, url, i)))
      && (forall name :: name in sent[i].headers ==> sent[i].headers[name] == headers0[name])
  {
    var (outcome, sent) := Follow(w, Origin(url), First(url, verb0, headers0), body);
    var hs := FollowTrace(w, Origin(url), First(url, verb0, headers0), body);
    TraceHeaders(w, Origin(url), First(url, verb0, headers0), body, outcome, sent, hs, i);
    assert LeftTheSite(sent, url, i) <==> Strayed(sent, Origin(url), i);
  }

  lemma {:induction false} TraceVerbs(w: World, origin: SiteOrigin, h: Hopping, body: Option<seq<Byte>>,
                                      outcome: Outcome, sent: seq<Request>, hs: seq<Hopping>, i: nat)
    requires Trace(w, origin, h, body, outcome, sent, hs) && h.hops == 0 && i < |hs|
    ensures hs[i].verb == if Downgraded(w, i, h.verb) then "GET" else h.verb
  {
    if i > 0 {
      TraceVerbs(w, origin, h, body, outcome, sent, hs, i - 1);
      assert Moves(w, origin, hs[i - 1], hs[i]);
      assert Downgraded(w, i, h.verb) <==> Downgraded(w, i - 1, h.verb) || ReplyDowngrades(w, i - 1, h.verb);
    }
  }

  /** Each request uses the caller's method or GET: GET exactly when an earlier reply was a 303,
      or a 301 or 302 and the caller's method was not HEAD. */
  lemma MethodsDegradeToGet(w: World, url: Url, verb0: string, headers0: Headers, body: Option<seq<Byte>>, i: nat)
    requires i < |Follow(w, Origin(url), First(url, verb0, headers0), body).1|
    ensures Follow(w, Origin(url), First(url, verb0, headers0), body).1[i].verb ==
            if Downgraded(w, i, verb0) then "GET" else verb0
  {
    var (outcome, sent) := Follow(w, Origin(url), First(url, verb0, headers0), body);
    var hs := FollowTrace(w, Origin(url), First(url, verb0, headers0), body);
    TraceVerbs(w, Origin(url), First(url, verb0, headers0), body, outcome, sent, hs, i);
  }
}
