/** Runtime settings: validated partial updates, kept in a file, overridable by the environment. */
module Settings {
  import opened Wrappers
  import opened Text
  import opened JsonValues

  type U64 = n: int | 0 <= n < 0x1_0000_0000_0000_0000

  const MAX_BODY_BACKSTOP: U64 := 500 * 1024 * 1024
  const PROXY_MODES: set<string> := {"any", "allowlist", "disabled"}

  datatype Settings = Settings(
    contentCacheBytes: U64,
    inputCacheBytes: U64,
    inputCacheTtlMs: U64,
    writeCoalesceMs: U64,
    maxBodyBytes: U64,
    proxyMode: string,
    proxyAllowlist: seq<string>,
    directFetchHosts: seq<string>,
    wsOrigins: seq<string>,
    proxyAllowPrivate: seq<string>)

  function Default(): Settings {
    Settings(50 * 1024 * 1024, 200 * 1024 * 1024, 5 * 60 * 1000, 0, 50 * 1024 * 1024, "any", [], [], [], [])
  }

  /** The keys a client may set and the file keeps, in the order they are looked at. The two
      remaining settings come from the environment only. */
  datatype Key =
    | ProxyMode
    | ContentCacheBytes
    | InputCacheBytes
    | InputCacheTtlMs
    | WriteCoalesceMs
    | MaxBodyBytes
    | ProxyAllowlist
    | DirectFetchHosts

  const NUMBERS: seq<Key> := [ContentCacheBytes, InputCacheBytes, InputCacheTtlMs, WriteCoalesceMs, MaxBodyBytes]
  const LISTS: seq<Key> := [ProxyAllowlist, DirectFetchHosts]
  const ORDER: seq<Key> := [ProxyMode] + NUMBERS + LISTS

  function Name(k: Key): string {
    match k
    case ProxyMode => "proxyMode"
    case ContentCacheBytes => "contentCacheBytes"
    case InputCacheBytes => "inputCacheBytes"
    case InputCacheTtlMs => "inputCacheTtlMs"
    case WriteCoalesceMs => "writeCoalesceMs"
    case MaxBodyBytes => "maxBodyBytes"
    case ProxyAllowlist => "proxyAllowlist"
    case DirectFetchHosts => "directFetchHosts"
  }

  /** What a setting looks like in JSON. */
  function Field(s: Settings, k: Key): Json {
    match k
    case ProxyMode => Str(s.proxyMode)
    case ContentCacheBytes => Int(s.contentCacheBytes)
    case InputCacheBytes => Int(s.inputCacheBytes)
    case InputCacheTtlMs => Int(s.inputCacheTtlMs)
    case WriteCoalesceMs => Int(s.writeCoalesceMs)
    case MaxBodyBytes => Int(s.maxBodyBytes)
    case ProxyAllowlist => Arr(Strings(s.proxyAllowlist))
    case DirectFetchHosts => Arr(Strings(s.directFetchHosts))
  }

  function Strings(xs: seq<string>): (r: seq<Json>)
    ensures |r| == |xs|
  {
    if xs == [] then [] else Strings(xs[..|xs| - 1]) + [Str(xs[|xs| - 1])]
  }

  predicate IsList(k: Key) { k == ProxyAllowlist || k == DirectFetchHosts }

  predicate IsNumber(k: Key) { k != ProxyMode && !IsList(k) }

  /** A list item without the space around it; nothing at all when it is not a string. */
  function Clean(j: Json): string {
    if j.Str? then Trim(j.s) else ""
  }

  /** The values a client may give for a key. */
  predicate Acceptable(k: Key, v: Json) {
    if k == ProxyMode then v.Str? && v.s in PROXY_MODES
    else if IsNumber(k) then
      v.Int? && 0 <= v.n < 0x1_0000_0000_0000_0000 && (k == MaxBodyBytes ==> 1 <= v.n <= MAX_BODY_BACKSTOP)
    else GoodList(v)
  }

  predicate GoodList(v: Json) {
    v.Arr? && "" !in CleanAll(v.items)
  }

  function CleanAll(items: seq<Json>): (r: seq<string>)
    ensures |r| == |items|
  {
    if items == [] then [] else CleanAll(items[..|items| - 1]) + [Clean(items[|items| - 1])]
  }

  lemma {:induction false} CleanAt(items: seq<Json>, i: nat)
    requires i < |items|
    ensures CleanAll(items)[i] == Clean(items[i])
  {
    if i < |items| - 1 {
      CleanAt(items[..|items| - 1], i);
    }
  }

  function Put(s: Settings, k: Key, v: Json): Settings
    requires Acceptable(k, v)
  {
    match k
    case ProxyMode => s.(proxyMode := v.s)
    case ContentCacheBytes => s.(contentCacheBytes := v.n)
    case InputCacheBytes => s.(inputCacheBytes := v.n)
    case InputCacheTtlMs => s.(inputCacheTtlMs := v.n)
    case WriteCoalesceMs => s.(writeCoalesceMs := v.n)
    case MaxBodyBytes => s.(maxBodyBytes := v.n)
    case ProxyAllowlist => s.(proxyAllowlist := CleanAll(v.items))
    case DirectFetchHosts => s.(directFetchHosts := CleanAll(v.items))
  }

  datatype Problem = NotAnObject | BadValue(key: Key)

  /** The settings after a merge, and what stopped it. */
  datatype Merged = Merged(settings: Settings, problem: Option<Problem>)

  /** Keys are taken in order, up to the first whose value will not do. */
  function MergeKeys(s: Settings, obj: map<string, Json>, keys: seq<Key>): Merged
    decreases |keys|
  {
    if keys == [] then Merged(s, None)
    else if Name(keys[0]) !in obj then MergeKeys(s, obj, keys[1..])
    else if !Acceptable(keys[0], obj[Name(keys[0])]) then Merged(s, Some(BadValue(keys[0])))
    else MergeKeys(Put(s, keys[0], obj[Name(keys[0])]), obj, keys[1..])
  }

  lemma MergeStep(s: Settings, obj: map<string, Json>, key: Key, rest: seq<Key>)
    ensures MergeKeys(s, obj, [key] + rest) ==
            if Name(key) !in obj then MergeKeys(s, obj, rest)
            else if !Acceptable(key, obj[Name(key)]) then Merged(s, Some(BadValue(key)))
            else MergeKeys(Put(s, key, obj[Name(key)]), obj, rest)
  {
  }

  /** The items of a list setting: every one a string with something left after trimming. */
  method CleanList(v: Json) returns (r: Option<seq<string>>)
    ensures r == if GoodList(v) then Some(CleanAll(v.items)) else None
  {
    if !v.Arr? {
      return None;
    }
    var out := [];
    for j := 0 to |v.items|
      invariant out == CleanAll(v.items[..j]) && "" !in out
    {
      var sv := Clean(v.items[j]);
      CleanOneMore(v.items, j);
      if sv == "" {
        return None;
      }
      out := out + [sv];
    }
    assert v.items[..|v.items|] == v.items;
    r := Some(out);
  }

  lemma CleanOneMore(items: seq<Json>, j: nat)
    requires j < |items|
    ensures CleanAll(items[..j + 1]) == CleanAll(items[..j]) + [Clean(items[j])]
    ensures Clean(items[j]) in CleanAll(items)
  {
    assert items[..j + 1][..j] == items[..j];
    CleanAt(items, j);
  }

  /** How a merge of `keys` and then `rest` has gone, once `keys` are dealt with. */
  ghost predicate MergedBy(s0: Settings, obj: map<string, Json>, keys: seq<Key>, rest: seq<Key>,
                           s: Settings, problem: Option<Problem>)
  {
    MergeKeys(s0, obj, keys + rest) == if problem.Some? then Merged(s, problem) else MergeKeys(s, obj, rest)
  }

  method MergeNumbers(s0: Settings, obj: map<string, Json>, keys: seq<Key>, ghost rest: seq<Key>)
    returns (s: Settings, problem: Option<Problem>)
    requires forall k :: k in keys ==> IsNumber(k)
    ensures MergedBy(s0, obj, keys, rest, s, problem)
  {
    s := s0;
    for i := 0 to |keys|
      invariant MergeKeys(s, obj, keys[i..] + rest) == MergeKeys(s0, obj, keys + rest)
    {
      var key := keys[i];
      assert keys[i..] + rest == [key] + (keys[i + 1..] + rest);
      MergeStep(s, obj, key, keys[i + 1..] + rest);
      if Name(key) in obj {
        var v := obj[Name(key)];
        if !v.Int? || !(0 <= v.n < 0x1_0000_0000_0000_0000) {
          return s, Some(BadValue(key));
        }
        if key == MaxBodyBytes && !(1 <= v.n <= MAX_BODY_BACKSTOP) {
          return s, Some(BadValue(key));
        }
        ghost var put := Put(s, key, v);
        match key {
          case ContentCacheBytes => s := s.(contentCacheBytes := v.n);
          case InputCacheBytes => s := s.(inputCacheBytes := v.n);
          case InputCacheTtlMs => s := s.(inputCacheTtlMs := v.n);
          case WriteCoalesceMs => s := s.(writeCoalesceMs := v.n);
          case MaxBodyBytes => s := s.(maxBodyBytes := v.n);
          case _ =>
        }
        assert s == put;
      }
    }
    assert keys[|keys|..] + rest == rest;
    problem := None;
  }

  method MergeLists(s0: Settings, obj: map<string, Json>, keys: seq<Key>, ghost rest: seq<Key>)
    returns (s: Settings, problem: Option<Problem>)
    requires forall k :: k in keys ==> IsList(k)
    ensures MergedBy(s0, obj, keys, rest, s, problem)
  {
    s := s0;
    for i := 0 to |keys|
      invariant MergeKeys(s, obj, keys[i..] + rest) == MergeKeys(s0, obj, keys + rest)
    {
      var key := keys[i];
      assert keys[i..] + rest == [key] + (keys[i + 1..] + rest);
      MergeStep(s, obj, key, keys[i + 1..] + rest);
      if Name(key) in obj {
        var v := obj[Name(key)];
        var out := CleanList(v);
        if out.None? {
          return s, Some(BadValue(key));
        }
        ghost var put := Put(s, key, v);
        match key {
          case ProxyAllowlist => s := s.(proxyAllowlist := out.value);
          case DirectFetchHosts => s := s.(directFetchHosts := out.value);
          case _ =>
        }
        assert s == put;
      }
    }
    assert keys[|keys|..] + rest == rest;
    problem := None;
  }

  function Merge(s: Settings, body: Json): Merged {
    if body.Obj? then MergeKeys(s, body.fields, ORDER) else Merged(s, Some(NotAnObject))
  }

  /** Validate and merge a partial settings object, field by field; what was merged before the
      offending field stays merged. */
  method MergeClean(s0: Settings, body: Json) returns (s: Settings, problem: Option<Problem>)
    ensures Merged(s, problem) == Merge(s0, body)
  {
    s := s0;
    if !body.Obj? {
      return s, Some(NotAnObject);
    }
    var obj := body.fields;
    assert ORDER == [ProxyMode] + (NUMBERS + LISTS) && LISTS + [] == LISTS;
    MergeStep(s, obj, ProxyMode, NUMBERS + LISTS);
    if Name(ProxyMode) in obj {
      var v := obj[Name(ProxyMode)];
      var m := if v.Str? then v.s else "";
      if m !in PROXY_MODES {
        return s, Some(BadValue(ProxyMode));
      }
      s := s.(proxyMode := m);
    }
    s, problem := MergeNumbers(s, obj, NUMBERS, LISTS);
    if problem.None? {
      s, problem := MergeLists(s, obj, LISTS, []);
    }
  }

  // ---- what a merge does ----

  predicate Fine(obj: map<string, Json>, k: Key) {
    Name(k) in obj ==> Acceptable(k, obj[Name(k)])
  }

  /** How many keys come before the first bad one. */
  function FineUpTo(obj: map<string, Json>, keys: seq<Key>): (n: nat)
    ensures n <= |keys|
    ensures forall i :: 0 <= i < n ==> Fine(obj, keys[i])
    ensures n < |keys| ==> !Fine(obj, keys[n])
  {
    if keys == [] || !Fine(obj, keys[0]) then 0 else 1 + FineUpTo(obj, keys[1..])
  }

  /** The value as it is kept: list items trimmed, everything else as given. */
  function Kept(k: Key, v: Json): Json
    requires Acceptable(k, v)
  {
    if IsList(k) then Arr(Strings(CleanAll(v.items))) else v
  }

  predicate NoRepeats(keys: seq<Key>) {
    forall i, j :: 0 <= i < j < |keys| ==> keys[i] != keys[j]
  }

  /** The key comes before the first bad one. */
  predicate Taken(obj: map<string, Json>, keys: seq<Key>, k: Key) {
    k in keys[..FineUpTo(obj, keys)]
  }

  lemma TakenFirst(obj: map<string, Json>, keys: seq<Key>, k: Key)
    requires NoRepeats(keys) && keys != [] && Fine(obj, keys[0])
    ensures Taken(obj, keys, k) <==> k == keys[0] || Taken(obj, keys[1..], k)
    ensures k == keys[0] ==> !Taken(obj, keys[1..], k)
  {
  }

  /** The value one key has after a merge. */
  function After(s: Settings, obj: map<string, Json>, keys: seq<Key>, k: Key): Json {
    if Taken(obj, keys, k) && Name(k) in obj then Kept(k, obj[Name(k)]) else Field(s, k)
  }

  /** A merge takes over exactly the given keys that come before the first bad one, reports that
      one, and leaves everything else alone, the environment's settings always. */
  lemma {:induction false} MergeMeaning(s: Settings, obj: map<string, Json>, keys: seq<Key>)
    requires NoRepeats(keys)
    ensures var r, n := MergeKeys(s, obj, keys), FineUpTo(obj, keys);
      && r.problem == (if n < |keys| then Some(BadValue(keys[n])) else None)
      && (forall k :: Field(r.settings, k) == After(s, obj, keys, k))
      && r.settings.wsOrigins == s.wsOrigins && r.settings.proxyAllowPrivate == s.proxyAllowPrivate
    decreases |keys|
  {
    if keys != [] && Fine(obj, keys[0]) {
      var key, rest := keys[0], keys[1..];
      var s' := if Name(key) in obj then Put(s, key, obj[Name(key)]) else s;
      MergeMeaning(s', obj, rest);
      forall k ensures After(s', obj, rest, k) == After(s, obj, keys, k) {
        AfterFirst(s, obj, keys, k);
      }
    }
  }

  lemma AfterFirst(s: Settings, obj: map<string, Json>, keys: seq<Key>, k: Key)
    requires NoRepeats(keys) && keys != [] && Fine(obj, keys[0])
    ensures var s' := if Name(keys[0]) in obj then Put(s, keys[0], obj[Name(keys[0])]) else s;
      After(s', obj, keys[1..], k) == After(s, obj, keys, k)
  {
    TakenFirst(obj, keys, k);
    if Name(keys[0]) in obj {
      PutField(s, keys[0], obj[Name(keys[0])], k);
    }
  }

  lemma PutField(s: Settings, key: Key, v: Json, k: Key)
    requires Acceptable(key, v)
    ensures Field(Put(s, key, v), k) == if k == key then Kept(key, v) else Field(s, k)
  {
  }

  // ---- the same, name by name ----

  predicate GoodNumber(obj: map<string, Json>, name: string, low: int, high: int) {
    name in obj ==> obj[name].Int? && low <= obj[name].n <= high
  }

  predicate GoodMode(obj: map<string, Json>) {
    "proxyMode" in obj ==> obj["proxyMode"] in {Str("any"), Str("allowlist"), Str("disabled")}
  }

  /** A list of strings, each with something else than space in it. */
  predicate GoodStrings(obj: map<string, Json>, name: string) {
    name in obj ==>
      && obj[name].Arr?
      && forall i :: 0 <= i < |obj[name].items| ==> obj[name].items[i].Str? && !Spaces(obj[name].items[i].s)
  }

  predicate NumberFrom(obj: map<string, Json>, name: string, was: U64, now: U64) {
    if name in obj then obj[name] == Int(now) else now == was
  }

  /** The items without the space around them, in their order. */
  predicate StringsFrom(obj: map<string, Json>, name: string, was: seq<string>, now: seq<string>) {
    if name in obj then
      && obj[name].Arr? && |now| == |obj[name].items|
      && forall i :: 0 <= i < |now| ==> obj[name].items[i].Str? && now[i] == Trim(obj[name].items[i].s)
    else now == was
  }

  /** What a client may send, and what becomes of it: an update passes exactly when every setting
      it names has a value of the right kind and size; then exactly the settings it names change,
      each to the value under its own name. */
  lemma UpdateMeans(s: Settings, obj: map<string, Json>)
    ensures Merge(s, Obj(obj)).problem.Some? ==>
      exists k :: FirstBad(obj, k) && Merge(s, Obj(obj)).problem == Some(BadValue(k))
    ensures var r := Merge(s, Obj(obj));
      && (r.problem == None <==>
            && GoodMode(obj)
            && GoodNumber(obj, "contentCacheBytes", 0, 0xffff_ffff_ffff_ffff)
            && GoodNumber(obj, "inputCacheBytes", 0, 0xffff_ffff_ffff_ffff)
            && GoodNumber(obj, "inputCacheTtlMs", 0, 0xffff_ffff_ffff_ffff)
            && GoodNumber(obj, "writeCoalesceMs", 0, 0xffff_ffff_ffff_ffff)
            && GoodNumber(obj, "maxBodyBytes", 1, 524288000)
            && GoodStrings(obj, "proxyAllowlist") && GoodStrings(obj, "directFetchHosts"))
      && (r.problem == None ==>
            var now := r.settings;
            && (if "proxyMode" in obj then obj["proxyMode"] == Str(now.proxyMode) else now.proxyMode == s.proxyMode)
            && NumberFrom(obj, "contentCacheBytes", s.contentCacheBytes, now.contentCacheBytes)
            && NumberFrom(obj, "inputCacheBytes", s.inputCacheBytes, now.inputCacheBytes)
            && NumberFrom(obj, "inputCacheTtlMs", s.inputCacheTtlMs, now.inputCacheTtlMs)
            && NumberFrom(obj, "writeCoalesceMs", s.writeCoalesceMs, now.writeCoalesceMs)
            && NumberFrom(obj, "maxBodyBytes", s.maxBodyBytes, now.maxBodyBytes)
            && StringsFrom(obj, "proxyAllowlist", s.proxyAllowlist, now.proxyAllowlist)
            && StringsFrom(obj, "directFetchHosts", s.directFetchHosts, now.directFetchHosts)
            && now.wsOrigins == s.wsOrigins && now.proxyAllowPrivate == s.proxyAllowPrivate)
  {
    OrderIsComplete();
    MergeMeaning(s, obj, ORDER);
    AllOrSome(obj);
    FineMeans(obj);
    var r := Merge(s, Obj(obj));
    if r.problem.Some? {
      FirstProblem(obj);
    } else {
      assert ORDER[..|ORDER|] == ORDER;
      NumbersAfter(s, obj, r.settings);
      ListAfter(s, obj, r.settings);
    }
  }

  /** The first key that has a bad value, in the order in which they are looked at. */
  ghost predicate FirstBad(obj: map<string, Json>, k: Key) {
    var order := [ProxyMode, ContentCacheBytes, InputCacheBytes, InputCacheTtlMs,
                  WriteCoalesceMs, MaxBodyBytes, ProxyAllowlist, DirectFetchHosts];
    !Fine(obj, k) && exists i :: 0 <= i < 8 && order[i] == k && forall j :: 0 <= j < i ==> Fine(obj, order[j])
  }

  lemma FirstProblem(obj: map<string, Json>)
    requires FineUpTo(obj, ORDER) < |ORDER|
    ensures FirstBad(obj, ORDER[FineUpTo(obj, ORDER)])
  {
    var order := [ProxyMode, ContentCacheBytes, InputCacheBytes, InputCacheTtlMs,
                  WriteCoalesceMs, MaxBodyBytes, ProxyAllowlist, DirectFetchHosts];
    assert ORDER == order;
    assert order[FineUpTo(obj, ORDER)] == ORDER[FineUpTo(obj, ORDER)];
  }

  /** After a merge that went well, every key has the value given for it. */
  ghost predicate AllTaken(s: Settings, obj: map<string, Json>, now: Settings) {
    forall k :: Fine(obj, k) && Field(now, k) == if Name(k) in obj then Kept(k, obj[Name(k)]) else Field(s, k)
  }

  lemma AllOrSome(obj: map<string, Json>)
    ensures FineUpTo(obj, ORDER) == |ORDER| <==> forall k :: Fine(obj, k)
  {
    OrderIsComplete();
    var n := FineUpTo(obj, ORDER);
    if n == |ORDER| {
      forall k ensures Fine(obj, k) {
        assert k in ORDER;
        var i :| 0 <= i < |ORDER| && ORDER[i] == k;
      }
    } else {
      assert !Fine(obj, ORDER[n]);
    }
  }

  lemma FineMeans(obj: map<string, Json>)
    ensures Fine(obj, ProxyMode) <==> GoodMode(obj)
    ensures Fine(obj, ContentCacheBytes) <==> GoodNumber(obj, "contentCacheBytes", 0, 0xffff_ffff_ffff_ffff)
    ensures Fine(obj, InputCacheBytes) <==> GoodNumber(obj, "inputCacheBytes", 0, 0xffff_ffff_ffff_ffff)
    ensures Fine(obj, InputCacheTtlMs) <==> GoodNumber(obj, "inputCacheTtlMs", 0, 0xffff_ffff_ffff_ffff)
    ensures Fine(obj, WriteCoalesceMs) <==> GoodNumber(obj, "writeCoalesceMs", 0, 0xffff_ffff_ffff_ffff)
    ensures Fine(obj, MaxBodyBytes) <==> GoodNumber(obj, "maxBodyBytes", 1, 524288000)
    ensures Fine(obj, ProxyAllowlist) <==> GoodStrings(obj, "proxyAllowlist")
    ensures Fine(obj, DirectFetchHosts) <==> GoodStrings(obj, "directFetchHosts")
  {
    GoodListMeans(obj, "proxyAllowlist");
    GoodListMeans(obj, "directFetchHosts");
  }

  lemma GoodListMeans(obj: map<string, Json>, name: string)
    ensures name in obj ==> (GoodList(obj[name]) <==> GoodStrings(obj, name))
  {
    if name in obj && obj[name].Arr? {
      var items := obj[name].items;
      forall i | 0 <= i < |items| ensures CleanAll(items)[i] == "" <==> !items[i].Str? || Spaces(items[i].s) {
        CleanAt(items, i);
        if items[i].Str? { TrimLeaves(items[i].s); }
      }
      if "" in CleanAll(items) {
        var i :| 0 <= i < |items| && CleanAll(items)[i] == "";
      }
    }
  }

  lemma NumbersAfter(s: Settings, obj: map<string, Json>, now: Settings)
    requires AllTaken(s, obj, now)
    ensures if "proxyMode" in obj then obj["proxyMode"] == Str(now.proxyMode) else now.proxyMode == s.proxyMode
    ensures NumberFrom(obj, "contentCacheBytes", s.contentCacheBytes, now.contentCacheBytes)
    ensures NumberFrom(obj, "inputCacheBytes", s.inputCacheBytes, now.inputCacheBytes)
    ensures NumberFrom(obj, "inputCacheTtlMs", s.inputCacheTtlMs, now.inputCacheTtlMs)
    ensures NumberFrom(obj, "writeCoalesceMs", s.writeCoalesceMs, now.writeCoalesceMs)
    ensures NumberFrom(obj, "maxBodyBytes", s.maxBodyBytes, now.maxBodyBytes)
  {
    assert Fine(obj, ProxyMode) && Fine(obj, ContentCacheBytes) && Fine(obj, InputCacheBytes)
      && Fine(obj, InputCacheTtlMs) && Fine(obj, WriteCoalesceMs) && Fine(obj, MaxBodyBytes);
  }

  lemma ListAfter(s: Settings, obj: map<string, Json>, now: Settings)
    requires AllTaken(s, obj, now)
    ensures StringsFrom(obj, "proxyAllowlist", s.proxyAllowlist, now.proxyAllowlist)
    ensures StringsFrom(obj, "directFetchHosts", s.directFetchHosts, now.directFetchHosts)
  {
    assert Fine(obj, ProxyAllowlist) && Fine(obj, DirectFetchHosts);
    ListTaken(obj, "proxyAllowlist", s.proxyAllowlist, now.proxyAllowlist);
    ListTaken(obj, "directFetchHosts", s.directFetchHosts, now.directFetchHosts);
  }

  lemma ListTaken(obj: map<string, Json>, name: string, was: seq<string>, now: seq<string>)
    requires if name in obj then GoodList(obj[name]) && Strings(now) == Strings(CleanAll(obj[name].items))
             else Strings(now) == Strings(was)
    ensures StringsFrom(obj, name, was, now)
  {
    StringsInjective(now, if name in obj then CleanAll(obj[name].items) else was);
    if name in obj {
      GoodListMeans(obj, name);
      var items := obj[name].items;
      forall i | 0 <= i < |items| ensures now[i] == Trim(items[i].s) {
        CleanAt(items, i);
      }
    }
  }

  predicate Holds(obj: map<string, Json>, name: string, v: Json) { name in obj && obj[name] == v }

  predicate HoldsStrings(obj: map<string, Json>, name: string, xs: seq<string>) {
    Holds(obj, name, Arr(seq(|xs|, i requires 0 <= i < |xs| => Str(xs[i]))))
  }

  /** The file holds the eight settings a client may change, each under its own name, and nothing
      that comes from the environment. */
  predicate PersistedAs(json: Json, s: Settings) {
    json.Obj? && var obj := json.fields;
      && (forall name :: name in obj ==>
            || name in {"proxyMode", "proxyAllowlist", "directFetchHosts", "maxBodyBytes", "contentCacheBytes"}
            || name in {"inputCacheBytes", "inputCacheTtlMs", "writeCoalesceMs"})
      && Holds(obj, "proxyMode", Str(s.proxyMode))
      && Holds(obj, "contentCacheBytes", Int(s.contentCacheBytes))
      && Holds(obj, "inputCacheBytes", Int(s.inputCacheBytes))
      && Holds(obj, "inputCacheTtlMs", Int(s.inputCacheTtlMs))
      && Holds(obj, "writeCoalesceMs", Int(s.writeCoalesceMs))
      && Holds(obj, "maxBodyBytes", Int(s.maxBodyBytes))
      && HoldsStrings(obj, "proxyAllowlist", s.proxyAllowlist)
      && HoldsStrings(obj, "directFetchHosts", s.directFetchHosts)
  }

  lemma PersistedMeans(s: Settings)
    ensures PersistedAs(Persisted(s), s)
  {
    forall k ensures Holds(Persisted(s).fields, Name(k), Field(s, k)) {
      PersistedAt(s, k);
    }
    StringsMean(s.proxyAllowlist);
    StringsMean(s.directFetchHosts);
    FieldsHeld(s, Persisted(s).fields);
    PersistedNames(s);
  }

  lemma PersistedNames(s: Settings)
    ensures forall name :: name in Persisted(s).fields ==> exists k :: name == Name(k)
  {
  }

  lemma FieldsHeld(s: Settings, obj: map<string, Json>)
    requires forall k :: Holds(obj, Name(k), Field(s, k))
    ensures Holds(obj, "proxyMode", Str(s.proxyMode))
    ensures Holds(obj, "contentCacheBytes", Int(s.contentCacheBytes))
    ensures Holds(obj, "inputCacheBytes", Int(s.inputCacheBytes))
    ensures Holds(obj, "inputCacheTtlMs", Int(s.inputCacheTtlMs))
    ensures Holds(obj, "writeCoalesceMs", Int(s.writeCoalesceMs))
    ensures Holds(obj, "maxBodyBytes", Int(s.maxBodyBytes))
    ensures Holds(obj, "proxyAllowlist", Arr(Strings(s.proxyAllowlist)))
    ensures Holds(obj, "directFetchHosts", Arr(Strings(s.directFetchHosts)))
  {
    assert Holds(obj, Name(ProxyMode), Field(s, ProxyMode));
    assert Holds(obj, Name(ContentCacheBytes), Field(s, ContentCacheBytes));
    assert Holds(obj, Name(InputCacheBytes), Field(s, InputCacheBytes));
    assert Holds(obj, Name(InputCacheTtlMs), Field(s, InputCacheTtlMs));
    assert Holds(obj, Name(WriteCoalesceMs), Field(s, WriteCoalesceMs));
    assert Holds(obj, Name(MaxBodyBytes), Field(s, MaxBodyBytes));
    assert Holds(obj, Name(ProxyAllowlist), Field(s, ProxyAllowlist));
    assert Holds(obj, Name(DirectFetchHosts), Field(s, DirectFetchHosts));
  }

  lemma StringsMean(xs: seq<string>)
    ensures Strings(xs) == seq(|xs|, i requires 0 <= i < |xs| => Str(xs[i]))
  {
    forall i | 0 <= i < |xs| ensures Strings(xs)[i] == Str(xs[i]) {
      StringsAt(xs, i);
    }
  }

  // ---- settings are always valid ----

  predicate CleanStrings(xs: seq<string>) {
    forall x :: x in xs ==> x != "" && Trimmed(x)
  }

  predicate Valid(s: Settings) {
    && s.proxyMode in PROXY_MODES
    && 1 <= s.maxBodyBytes <= MAX_BODY_BACKSTOP
    && CleanStrings(s.proxyAllowlist) && CleanStrings(s.directFetchHosts)
    && CleanStrings(s.wsOrigins) && CleanStrings(s.proxyAllowPrivate)
  }

  lemma CleanAllClean(items: seq<Json>)
    requires GoodList(Arr(items))
    ensures CleanStrings(CleanAll(items))
  {
    forall x | x in CleanAll(items) ensures x != "" && Trimmed(x) {
      var i :| 0 <= i < |items| && x == CleanAll(items)[i];
      CleanAt(items, i);
      if items[i].Str? { TrimTrims(items[i].s); }
    }
  }

  lemma PutValid(s: Settings, k: Key, v: Json)
    requires Valid(s) && Acceptable(k, v)
    ensures Valid(Put(s, k, v))
  {
    if IsList(k) {
      CleanAllClean(v.items);
    }
  }

  /** Even a merge that fails half way leaves valid settings. */
  lemma {:induction false} MergeKeysValid(s: Settings, obj: map<string, Json>, keys: seq<Key>)
    requires Valid(s)
    ensures Valid(MergeKeys(s, obj, keys).settings)
    decreases |keys|
  {
    if keys != [] && Fine(obj, keys[0]) {
      if Name(keys[0]) in obj {
        PutValid(s, keys[0], obj[Name(keys[0])]);
        MergeKeysValid(Put(s, keys[0], obj[Name(keys[0])]), obj, keys[1..]);
      } else {
        MergeKeysValid(s, obj, keys[1..]);
      }
    }
  }

  lemma MergeValid(s: Settings, body: Json)
    requires Valid(s)
    ensures Valid(Merge(s, body).settings)
  {
    if body.Obj? {
      MergeKeysValid(s, body.fields, ORDER);
    }
  }

  // ---- loading and persisting ----

  /** The environment the server was started in: the number as parsed, the lists as given. */
  datatype Env = Env(writeCoalesceMs: Option<U64>, wsOrigins: Option<string>, proxyAllowPrivate: Option<string>)

  datatype Doc = Missing | Garbage | Saved(json: Json)

  function Listed(raw: Option<string>): (r: seq<string>)
    ensures CleanStrings(r)
  {
    if raw.Some? then ParseList(raw.value) else []
  }

  /** Defaults, overridden by the environment. */
  function Base(env: Env): (s: Settings)
    ensures Valid(s)
  {
    Default().(
      writeCoalesceMs := if env.writeCoalesceMs.Some? then env.writeCoalesceMs.value else Default().writeCoalesceMs,
      wsOrigins := Listed(env.wsOrigins),
      proxyAllowPrivate := Listed(env.proxyAllowPrivate))
  }

  /** A hand-edited file is taken as far as it is good. */
  function Load(env: Env, file: Doc): Settings {
    if file.Saved? then Merge(Base(env), file.json).settings else Base(env)
  }

  predicate FromEnv(s: Settings, env: Env) {
    s.wsOrigins == Listed(env.wsOrigins) && s.proxyAllowPrivate == Listed(env.proxyAllowPrivate)
  }

  lemma NamesDiffer()
    ensures forall k, k' :: Name(k) == Name(k') ==> k == k'
  {
  }

  /** What is written to the file: every setting but the environment's. */
  function Persisted(s: Settings): Json {
    NamesDiffer();
    Obj(map k | k in ORDER :: Name(k) := Field(s, k))
  }

  lemma PersistedAt(s: Settings, k: Key)
    ensures var obj := Persisted(s).fields; Name(k) in obj && obj[Name(k)] == Field(s, k)
  {
    NamesDiffer();
    OrderIsComplete();
    assert Name(k) in Persisted(s).fields;
  }

  lemma {:induction false} CleanStringsStay(xs: seq<string>)
    requires CleanStrings(xs)
    ensures CleanAll(Strings(xs)) == xs && GoodList(Arr(Strings(xs)))
  {
    if xs != [] {
      var init, last := xs[..|xs| - 1], xs[|xs| - 1];
      assert last in xs && forall x :: x in init ==> x in xs;
      CleanStringsStay(init);
      TrimKeeps(last);
      var js := Strings(xs);
      assert js == Strings(init) + [Str(last)];
      assert js[..|js| - 1] == Strings(init);
      assert xs == init + [last];
    }
  }

  /** What a valid setting looks like in the file is acceptable, and kept as it is. */
  lemma FieldKept(s: Settings, k: Key)
    requires Valid(s)
    ensures Acceptable(k, Field(s, k)) && Kept(k, Field(s, k)) == Field(s, k)
  {
    if k == ProxyAllowlist {
      CleanStringsStay(s.proxyAllowlist);
    } else if k == DirectFetchHosts {
      CleanStringsStay(s.directFetchHosts);
    }
  }

  lemma {:induction false} StringsAt(xs: seq<string>, i: nat)
    requires i < |xs|
    ensures Strings(xs)[i] == Str(xs[i])
  {
    if i < |xs| - 1 {
      StringsAt(xs[..|xs| - 1], i);
    }
  }

  lemma StringsInjective(xs: seq<string>, ys: seq<string>)
    requires Strings(xs) == Strings(ys)
    ensures xs == ys
  {
    forall i | 0 <= i < |xs| ensures xs[i] == ys[i] {
      StringsAt(xs, i);
      StringsAt(ys, i);
    }
  }

  lemma SameFields(s: Settings, s': Settings)
    requires forall k :: Field(s, k) == Field(s', k)
    requires s.wsOrigins == s'.wsOrigins && s.proxyAllowPrivate == s'.proxyAllowPrivate
    ensures s == s'
  {
    assert Field(s, ProxyMode) == Field(s', ProxyMode);
    assert Field(s, ContentCacheBytes) == Field(s', ContentCacheBytes);
    assert Field(s, InputCacheBytes) == Field(s', InputCacheBytes);
    assert Field(s, InputCacheTtlMs) == Field(s', InputCacheTtlMs);
    assert Field(s, WriteCoalesceMs) == Field(s', WriteCoalesceMs);
    assert Field(s, MaxBodyBytes) == Field(s', MaxBodyBytes);
    assert Field(s, ProxyAllowlist) == Field(s', ProxyAllowlist);
    assert Field(s, DirectFetchHosts) == Field(s', DirectFetchHosts);
    StringsInjective(s.proxyAllowlist, s'.proxyAllowlist);
    StringsInjective(s.directFetchHosts, s'.directFetchHosts);
  }

  /** Merging what was persisted sets every key to its persisted value. */
  lemma MergePersisted(base: Settings, s: Settings, k: Key)
    requires Valid(s)
    ensures Field(MergeKeys(base, Persisted(s).fields, ORDER).settings, k) == Field(s, k)
  {
    var obj := Persisted(s).fields;
    OrderIsComplete();
    AllFine(s, ORDER);
    assert ORDER[..|ORDER|] == ORDER;
    MergeMeaning(base, obj, ORDER);
    PersistedAt(s, k);
    FieldKept(s, k);
    assert Field(MergeKeys(base, obj, ORDER).settings, k) == After(base, obj, ORDER, k);
  }

  lemma AllFine(s: Settings, keys: seq<Key>)
    requires Valid(s)
    ensures FineUpTo(Persisted(s).fields, keys) == |keys|
  {
    var n := FineUpTo(Persisted(s).fields, keys);
    if n < |keys| {
      PersistedAt(s, keys[n]);
      FieldKept(s, keys[n]);
    }
  }

  /** Loading what was persisted, in the same environment, gives back the settings. */
  lemma LoadPersisted(env: Env, s: Settings)
    requires Valid(s) && FromEnv(s, env)
    ensures Load(env, Saved(Persisted(s))) == s
  {
    var base := Base(env);
    OrderIsComplete();
    MergeMeaning(base, Persisted(s).fields, ORDER);
    forall k ensures Field(MergeKeys(base, Persisted(s).fields, ORDER).settings, k) == Field(s, k) {
      MergePersisted(base, s, k);
    }
    SameFields(MergeKeys(base, Persisted(s).fields, ORDER).settings, s);
  }

  lemma OrderIsComplete()
    ensures NoRepeats(ORDER) && forall k :: k in ORDER
  {
    var all := [ProxyMode, ContentCacheBytes, InputCacheBytes, InputCacheTtlMs,
                WriteCoalesceMs, MaxBodyBytes, ProxyAllowlist, DirectFetchHosts];
    assert ORDER == all;
    forall k ensures k in all {
      match k
      case ProxyMode => assert all[0] == k;
      case ContentCacheBytes => assert all[1] == k;
      case InputCacheBytes => assert all[2] == k;
      case InputCacheTtlMs => assert all[3] == k;
      case WriteCoalesceMs => assert all[4] == k;
      case MaxBodyBytes => assert all[5] == k;
      case ProxyAllowlist => assert all[6] == k;
      case DirectFetchHosts => assert all[7] == k;
    }
  }

  // ---- serial runs ----

  /** How the write of the settings file ends: done, refused before the file was touched, or
      failed after the file was truncated. */
  datatype Write = Written | Refused | Torn

  datatype Post = Post(body: Json, write: Write)

  datatype Reply = Accepted(settings: Settings) | BadRequest(problem: Problem) | Failed

  /** The settings in memory and the file beside them. */
  datatype Stored = Stored(inner: Settings, file: Doc)

  /** One update: nothing changes unless the merge succeeds; memory changes only once the file
      is written. */
  function Posted(st: Stored, p: Post): (Stored, Reply) {
    var m := Merge(st.inner, p.body);
    if m.problem.Some? then (st, BadRequest(m.problem.value))
    else
      match p.write
      case Written => (Stored(m.settings, Saved(Persisted(m.settings))), Accepted(m.settings))
      case Refused => (st, Failed)
      case Torn => (st.(file := Garbage), Failed)
  }

  /** A bad update changes nothing; a good one changes memory and file together, unless the write
      fails, which leaves memory alone and may spoil the file. */
  lemma PostMeans(st: Stored, p: Post)
    ensures var ((next, reply), m) := (Posted(st, p), Merge(st.inner, p.body));
      && (reply.BadRequest? <==> m.problem.Some?) && (reply.BadRequest? ==> Some(reply.problem) == m.problem)
      && (reply.Accepted? <==> m.problem == None && p.write.Written?)
      && (reply.Accepted? ==>
            && next.inner == reply.settings == m.settings
            && next.file.Saved? && PersistedAs(next.file.json, next.inner))
      && (!reply.Accepted? ==> next.inner == st.inner)
      && (reply.Failed? ==> next.file == if p.write.Torn? then Garbage else st.file)
      && (reply.BadRequest? ==> next.file == st.file)
  {
    PersistedMeans(Posted(st, p).0.inner);
  }

  /** Without a file: fixed numbers, and what the environment says of three of the settings. */
  lemma StartMeans(env: Env)
    ensures var s := Load(env, Missing);
      && s.proxyMode == "any" && s.proxyAllowlist == s.directFetchHosts == []
      && s.contentCacheBytes == s.maxBodyBytes == 52428800 && s.inputCacheBytes == 209715200
      && s.inputCacheTtlMs == 300000
      && (if env.writeCoalesceMs.Some? then env.writeCoalesceMs == Some(s.writeCoalesceMs) else s.writeCoalesceMs == 0)
      && (if env.wsOrigins.Some? then s.wsOrigins == ParseList(env.wsOrigins.value) else s.wsOrigins == [])
      && (if env.proxyAllowPrivate.Some? then s.proxyAllowPrivate == ParseList(env.proxyAllowPrivate.value)
          else s.proxyAllowPrivate == [])
  {
  }

  class SettingsState {
    const env: Env
    var inner: Settings
    var file: Doc

    constructor Loaded(env: Env, file: Doc)
      ensures this.env == env && this.file == file
      ensures inner == Load(env, file)
    {
      var s := Base(env);
      if file.Saved? {
        var problem;
        s, problem := MergeClean(s, file.json);
      }
      this.env, this.inner, this.file := env, s, file;
    }

    method Persist(s: Settings, write: Write) returns (ok: bool)
      modifies this`file
      ensures ok == write.Written?
      ensures file == match write case Written => Saved(Persisted(s)) case Refused => old(file) case Torn => Garbage
    {
      match write {
        case Written => file := Saved(Persisted(s));
        case Refused =>
        case Torn => file := Garbage;
      }
      ok := write.Written?;
    }

    method PostSettings(p: Post) returns (reply: Reply)
      modifies this
      ensures (Stored(inner, file), reply) == Posted(old(Stored(inner, file)), p)
    {
      var s, problem := MergeClean(inner, p.body);
      if problem.Some? {
        return BadRequest(problem.value);
      }
      var ok := Persist(s, p.write);
      if !ok {
        return Failed;
      }
      inner := s;
      reply := Accepted(s);
    }
  }

  function Run(st: Stored, posts: seq<Post>): Stored
    decreases |posts|
  {
    if posts == [] then st else Run(Posted(st, posts[0]).0, posts[1..])
  }

  predicate TornAfter(torn: bool, reply: Reply, write: Write) {
    match reply
    case Accepted(_) => false
    case BadRequest(_) => torn
    case Failed => write.Torn? || torn
  }

  /** Of the writes that touched the file, the last one tore it. */
  predicate LeftTorn(st: Stored, torn: bool, posts: seq<Post>)
    decreases |posts|
  {
    if posts == [] then torn
    else
      var (next, reply) := Posted(st, posts[0]);
      LeftTorn(next, TornAfter(torn, reply, posts[0].write), posts[1..])
  }

  /** Memory agrees with the file, or the file was torn and reads as if it were missing. */
  predicate Consistent(env: Env, st: Stored, torn: bool) {
    && Valid(st.inner) && FromEnv(st.inner, env)
    && if torn then Load(env, st.file) == Base(env) else Load(env, st.file) == st.inner
  }

  lemma LoadConsistent(env: Env, file: Doc)
    ensures Consistent(env, Stored(Load(env, file), file), false)
  {
    if file.Saved? {
      MergeValid(Base(env), file.json);
      MergeFromEnv(Base(env), file.json);
    }
  }

  lemma MergeFromEnv(s: Settings, body: Json)
    ensures var r := Merge(s, body).settings;
      r.wsOrigins == s.wsOrigins && r.proxyAllowPrivate == s.proxyAllowPrivate
  {
    OrderIsComplete();
    if body.Obj? {
      MergeMeaning(s, body.fields, ORDER);
    }
  }

  lemma PostConsistent(env: Env, st: Stored, torn: bool, p: Post)
    requires Consistent(env, st, torn)
    ensures var (next, reply) := Posted(st, p);
      Consistent(env, next, TornAfter(torn, reply, p.write))
  {
    var m := Merge(st.inner, p.body);
    MergeValid(st.inner, p.body);
    MergeFromEnv(st.inner, p.body);
    if m.problem.None? && p.write.Written? {
      LoadPersisted(env, m.settings);
    }
  }

  lemma {:induction false} RunConsistent(env: Env, st: Stored, torn: bool, posts: seq<Post>)
    requires Consistent(env, st, torn)
    ensures Consistent(env, Run(st, posts), LeftTorn(st, torn, posts))
    decreases |posts|
  {
    if posts != [] {
      PostConsistent(env, st, torn, posts[0]);
      var (next, reply) := Posted(st, posts[0]);
      RunConsistent(env, next, TornAfter(torn, reply, posts[0].write), posts[1..]);
    }
  }

  /** After any series of updates the settings are valid, and a restart in the same environment
      loads exactly what memory holds, unless the last write to touch the file tore it and
      memory holds something else than the environment alone would give. */
  lemma RestartLoadsMemory(env: Env, file: Doc, posts: seq<Post>)
    ensures var st0 := Stored(Load(env, file), file);
      var st := Run(st0, posts);
      && Valid(st.inner)
      && (Load(env, st.file) == st.inner <==> !LeftTorn(st0, false, posts) || st.inner == Base(env))
  {
    LoadConsistent(env, file);
    RunConsistent(env, Stored(Load(env, file), file), false, posts);
  }

  /** Without a torn write every reply leaves memory and file in step. */
  lemma {:induction false} NoTearNoLoss(env: Env, st: Stored, posts: seq<Post>)
    requires forall p :: p in posts ==> !p.write.Torn?
    ensures !LeftTorn(st, false, posts)
    decreases |posts|
  {
    if posts != [] {
      assert posts[0] in posts && forall p :: p in posts[1..] ==> p in posts;
      NoTearNoLoss(env, Posted(st, posts[0]).0, posts[1..]);
    }
  }

  /** A torn write is answered with an error that leaves memory alone, yet a restart would lose
      what an earlier success had saved. */
  lemma TornWriteLoses(env: Env, s: Settings)
    requires Valid(s) && FromEnv(s, env) && s != Base(env)
    ensures var (st, reply) := Posted(Stored(s, Saved(Persisted(s))), Post(Obj(map[]), Torn));
      reply == Failed && st.inner == s && Load(env, Saved(Persisted(s))) == s && Load(env, st.file) != s
  {
    LoadPersisted(env, s);
    NothingGiven(s, ORDER);
  }

  lemma {:induction false} NothingGiven(s: Settings, keys: seq<Key>)
    ensures MergeKeys(s, map[], keys) == Merged(s, None)
    decreases |keys|
  {
    if keys != [] {
      NothingGiven(s, keys[1..]);
    }
  }
}
