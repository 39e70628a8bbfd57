/** Lexical resolution of vault-relative paths (Unix component rules). */
module Resolve {
  import opened Wrappers
  import opened Sequences
  import opened Text
  import opened Keys
  import opened Vault

  datatype Component = RootDir | CurDir | ParentDir | Normal(name: string)

  datatype Fault = EscapesVault | AbsolutePath

  /** `.` counts only at the very start of a path, empty parts never do. */
  function FromParts(parts: seq<string>, first: bool): seq<Component> {
    if parts == [] then []
    else
      (if parts[0] == "" then []
       else if parts[0] == "." then (if first then [CurDir] else [])
       else if parts[0] == ".." then [ParentDir]
       else [Normal(parts[0])])
      + FromParts(parts[1..], false)
  }

  /** `Path::components` */
  function Components(s: string): seq<Component> {
    (if s != "" && s[0] == '/' then [RootDir] else []) + FromParts(Split(s, '/'), true)
  }

  predicate IsLead(c: char) { c == '/' || c == '\\' }

  function TrimLead(rel: string): string { TrimStart(rel, IsLead) }

  function Push(st: seq<string>, c: Component): Result<seq<string>, Fault> {
    match c
    case Normal(n) => Ok(st + [n])
    case CurDir => Ok(st)
    case ParentDir => if st == [] then Err(EscapesVault) else Ok(st[..|st| - 1])
    case RootDir => Err(AbsolutePath)
  }

  /** The pure normaliser: a stack of names. */
  function Stack(comps: seq<Component>): Result<seq<string>, Fault> {
    if comps == [] then Ok([])
    else
      match Stack(comps[..|comps| - 1])
      case Err(f) => Err(f)
      case Ok(st) => Push(st, comps[|comps| - 1])
  }

  /** The normal form of a path relative to the vault. */
  function Norm(rel: string): Result<seq<string>, Fault> {
    Stack(Components(TrimLead(rel)))
  }

  function Resolve(root: seq<string>, rel: string): Result<seq<string>, Fault> {
    match Norm(rel)
    case Ok(names) => Ok(root + names)
    case Err(f) => Err(f)
  }

  /** The loop pushes and pops on the output path itself and counts how deep it is below the
      root, so that the root is never popped. */
  method ResolveInVault(root: seq<string>, rel: string) returns (r: Result<seq<string>, Fault>)
    ensures r == Resolve(root, rel)
  {
    r := FollowComponents(root, Components(TrimLead(rel)));
  }

  method FollowComponents(root: seq<string>, comps: seq<Component>) returns (r: Result<seq<string>, Fault>)
    ensures r == match Stack(comps) case Ok(names) => Ok(root + names) case Err(f) => Err(f)
  {
    var out := root;
    var depth: int := 0;
    ghost var st: seq<string> := [];
    for i := 0 to |comps|
      invariant Stack(comps[..i]) == Ok(st) && out == root + st && depth == |st|
    {
      StackStep(comps, i);
      match comps[i] {
        case Normal(c) =>
          assert (root + st) + [c] == root + (st + [c]);
          out := out + [c];
          depth := depth + 1;
          st := st + [c];
        case CurDir =>
        case ParentDir =>
          if depth == 0 {
            return Err(EscapesVault);
          }
          depth := depth - 1;
          assert (root + st)[..|root + st| - 1] == root + st[..|st| - 1];
          out := out[..|out| - 1];
          st := st[..|st| - 1];
        case RootDir =>
          return Err(AbsolutePath);
      }
    }
    assert comps[..|comps|] == comps;
    r := Ok(out);
  }

  /** One more component; once the stack fails it has failed for good. */
  lemma StackStep(comps: seq<Component>, i: nat)
    requires i < |comps| && Stack(comps[..i]).Ok?
    ensures Stack(comps[..i + 1]) == Push(Stack(comps[..i]).value, comps[i])
    ensures Stack(comps[..i + 1]).Err? ==> Stack(comps) == Stack(comps[..i + 1])
  {
    assert comps[..i + 1][..i] == comps[..i];
    if Stack(comps[..i + 1]).Err? {
      StackFails(comps, i + 1);
    }
  }

  lemma {:induction false} StackFails(comps: seq<Component>, i: nat)
    requires i <= |comps| && Stack(comps[..i]).Err?
    ensures Stack(comps) == Stack(comps[..i])
  {
    if i == |comps| {
      assert comps[..i] == comps;
    } else {
      assert comps[..|comps| - 1][..i] == comps[..i];
      StackFails(comps[..|comps| - 1], i);
    }
  }

  // ---- what normalisation means ----

  function Names(comps: seq<Component>): nat {
    if comps == [] then 0 else Names(comps[..|comps| - 1]) + if comps[|comps| - 1].Normal? then 1 else 0
  }

  function Ups(comps: seq<Component>): nat {
    if comps == [] then 0 else Ups(comps[..|comps| - 1]) + if comps[|comps| - 1].ParentDir? then 1 else 0
  }

  predicate NoRoot(comps: seq<Component>) {
    forall i :: 0 <= i < |comps| ==> comps[i] != RootDir
  }

  /** Some prefix climbs more often than it descends. */
  predicate Escapes(comps: seq<Component>) {
    exists i :: 0 <= i <= |comps| && Ups(comps[..i]) > Names(comps[..i])
  }

  /** The names no later `..` cancels, found from the right without a stack: `debt` counts the
      `..` still looking for a name. */
  function Survivors(comps: seq<Component>, debt: nat): seq<string> {
    if comps == [] then []
    else
      var init := comps[..|comps| - 1];
      match comps[|comps| - 1]
      case ParentDir => Survivors(init, debt + 1)
      case Normal(n) => if debt > 0 then Survivors(init, debt - 1) else Survivors(init, 0) + [n]
      case _ => Survivors(init, debt)
  }

  lemma EscapesStep(comps: seq<Component>)
    requires comps != []
    ensures Escapes(comps) <==> Escapes(comps[..|comps| - 1]) || Ups(comps) > Names(comps)
  {
    var init := comps[..|comps| - 1];
    assert comps[..|comps|] == comps;
    if Escapes(init) {
      var i :| 0 <= i <= |init| && Ups(init[..i]) > Names(init[..i]);
      assert init[..i] == comps[..i];
    }
    if Escapes(comps) {
      var i :| 0 <= i <= |comps| && Ups(comps[..i]) > Names(comps[..i]);
      if i < |comps| {
        assert init[..i] == comps[..i];
      }
    }
  }

  lemma {:induction false} StackFailsIffEscapes(comps: seq<Component>)
    requires NoRoot(comps)
    ensures if Escapes(comps) then Stack(comps) == Err(EscapesVault)
            else Stack(comps).Ok? && |Stack(comps).value| == Names(comps) - Ups(comps)
  {
    if comps == [] {
      assert forall i :: 0 <= i <= |comps| ==> comps[..i] == [];
    } else {
      StackFailsIffEscapes(comps[..|comps| - 1]);
      EscapesStep(comps);
    }
  }

  lemma {:induction false} StackKeepsSurvivors(comps: seq<Component>, debt: nat)
    requires Stack(comps).Ok? && debt <= |Stack(comps).value|
    ensures Survivors(comps, debt) == Stack(comps).value[..|Stack(comps).value| - debt]
  {
    if comps != [] {
      var init := comps[..|comps| - 1];
      var st := Stack(init).value;
      match comps[|comps| - 1]
      case ParentDir => StackKeepsSurvivors(init, debt + 1);
      case Normal(n) => StackKeepsSurvivors(init, if debt > 0 then debt - 1 else 0);
      case CurDir => StackKeepsSurvivors(init, debt);
      case RootDir =>
    }
  }

  lemma {:induction false} PartsHaveNoRoot(parts: seq<string>, first: bool)
    ensures NoRoot(FromParts(parts, first))
  {
    if parts != [] {
      PartsHaveNoRoot(parts[1..], false);
    }
  }

  lemma StackMeans(comps: seq<Component>)
    requires NoRoot(comps)
    ensures Stack(comps) == if Escapes(comps) then Err(EscapesVault) else Ok(Survivors(comps, 0))
  {
    StackFailsIffEscapes(comps);
    if Stack(comps).Ok? {
      StackKeepsSurvivors(comps, 0);
      assert Stack(comps).value[..|Stack(comps).value|] == Stack(comps).value;
    }
  }

  // ---- the same, for the text ----

  /** What is left of the text is what follows its leading slashes and backslashes. */
  lemma {:induction false} TrimLeadMeans(lead: string, rest: string)
    requires forall i :: 0 <= i < |lead| ==> lead[i] in {'/', '\\'}
    requires rest == "" || rest[0] !in {'/', '\\'}
    ensures TrimLead(lead + rest) == rest
  {
    if lead == "" {
      assert lead + rest == rest;
    } else {
      TrimLeadMeans(lead[1..], rest);
      assert (lead + rest)[1..] == lead[1..] + rest;
    }
  }

  /** The parts of a text that say where to go: neither empty nor `.` */
  function Steps(parts: seq<string>): seq<string> {
    if parts == [] then []
    else (if parts[0] in {"", "."} then [] else [parts[0]]) + Steps(parts[1..])
  }

  /** Some prefix of the steps holds more `..` than names. */
  predicate ClimbsOut(steps: seq<string>) {
    exists i :: 0 <= i <= |steps| && 2 * multiset(steps[..i])[".."] > i
  }

  /** The names among the steps that no later `..` cancels. */
  function Uncancelled(steps: seq<string>, debt: nat): seq<string> {
    if steps == [] then []
    else
      var init, last := steps[..|steps| - 1], steps[|steps| - 1];
      if last == ".." then Uncancelled(init, debt + 1)
      else if debt > 0 then Uncancelled(init, debt - 1)
      else Uncancelled(init, 0) + [last]
  }

  function Stepped(step: string): Component { if step == ".." then ParentDir else Normal(step) }

  function AsComponents(steps: seq<string>): seq<Component> {
    seq(|steps|, i requires 0 <= i < |steps| => Stepped(steps[i]))
  }

  /** The components of a text are its steps, after a `.` that may come first. */
  lemma {:induction false} PartsAreSteps(parts: seq<string>, first: bool)
    ensures FromParts(parts, first) ==
            (if first && parts != [] && parts[0] == "." then [CurDir] else []) + AsComponents(Steps(parts))
  {
    if parts != [] {
      PartsAreSteps(parts[1..], false);
      var tail := Steps(parts[1..]);
      if parts[0] !in {"", "."} {
        assert AsComponents([parts[0]] + tail) == [Stepped(parts[0])] + AsComponents(tail);
      }
    }
  }

  lemma {:induction false} CurDirFirst(comps: seq<Component>)
    ensures Stack([CurDir] + comps) == Stack(comps)
  {
    var all := [CurDir] + comps;
    if comps == [] {
      assert all[..|all| - 1] == [];
    } else {
      CurDirFirst(comps[..|comps| - 1]);
      assert all[..|all| - 1] == [CurDir] + comps[..|comps| - 1];
    }
  }

  lemma {:induction false} StepCounts(steps: seq<string>)
    ensures Ups(AsComponents(steps)) == multiset(steps)[".."]
    ensures Ups(AsComponents(steps)) + Names(AsComponents(steps)) == |steps|
  {
    if steps != [] {
      var init, last := steps[..|steps| - 1], steps[|steps| - 1];
      StepCounts(init);
      SplitLast(steps);
      assert AsComponents(steps)[..|steps| - 1] == AsComponents(init);
      assert multiset(steps) == multiset(init) + multiset{last};
    }
  }

  lemma ClimbingEscapes(steps: seq<string>)
    ensures Escapes(AsComponents(steps)) <==> ClimbsOut(steps)
  {
    var comps := AsComponents(steps);
    forall i | 0 <= i <= |steps|
      ensures Ups(comps[..i]) > Names(comps[..i]) <==> 2 * multiset(steps[..i])[".."] > i
    {
      StepCounts(steps[..i]);
      assert comps[..i] == AsComponents(steps[..i]);
    }
  }

  lemma {:induction false} StepsSurvive(steps: seq<string>, debt: nat)
    ensures Survivors(AsComponents(steps), debt) == Uncancelled(steps, debt)
  {
    if steps != [] {
      var init, last := steps[..|steps| - 1], steps[|steps| - 1];
      assert AsComponents(steps)[..|steps| - 1] == AsComponents(init);
      StepsSurvive(init, if last == ".." then debt + 1 else if debt > 0 then debt - 1 else 0);
    }
  }

  /** The parts of the text between slashes, after what leads it, empty ones and `.` left out:
      resolution fails exactly when some prefix of them holds more `..` than names; otherwise it
      yields the root followed by the names that no `..` cancels. */
  lemma Resolution(root: seq<string>, rel: string)
    ensures var steps := Steps(Split(TrimLead(rel), '/'));
      Resolve(root, rel) == if ClimbsOut(steps) then Err(EscapesVault) else Ok(root + Uncancelled(steps, 0))
  {
    var parts := Split(TrimLead(rel), '/');
    var comps := AsComponents(Steps(parts));
    PartsAreSteps(parts, true);
    CurDirFirst(comps);
    assert [] + comps == comps;
    assert Components(TrimLead(rel)) == FromParts(parts, true);
    StackMeans(comps);
    ClimbingEscapes(Steps(parts));
    StepsSurvive(Steps(parts), 0);
  }

  // ---- resolving what has been resolved ----

  /** What `Normal` components look like on Unix; a backslash is an ordinary character. */
  predicate Plain(n: string) {
    n != "" && '/' !in n && n != "." && n != ".."
  }

  predicate AllPlain(names: seq<string>) {
    forall i :: 0 <= i < |names| ==> Plain(names[i])
  }

  function Normals(names: seq<string>): seq<Component> {
    if names == [] then [] else [Normal(names[0])] + Normals(names[1..])
  }

  lemma {:induction false} PlainParts(names: seq<string>, first: bool)
    requires AllPlain(names)
    ensures FromParts(names, first) == Normals(names)
  {
    if names != [] {
      PlainParts(names[1..], false);
    }
  }

  /** Stacking one path on top of another that resolves on its own. */
  lemma {:induction false} StackConcat(a: seq<Component>, b: seq<Component>)
    requires Stack(a).Err? || Stack(b).Ok?
    ensures Stack(a + b) == if Stack(a).Err? then Stack(a) else Ok(Stack(a).value + Stack(b).value)
  {
    if b == [] {
      assert a + b == a;
      if Stack(a).Ok? { assert Stack(a).value + [] == Stack(a).value; }
    } else {
      var init, last := b[..|b| - 1], b[|b| - 1];
      StackConcat(a, init);
      assert (a + b)[..|a + b| - 1] == a + init && (a + b)[|a + b| - 1] == last;
      if Stack(a).Ok? {
        var st, st' := Stack(a).value, Stack(init).value;
        match last
        case Normal(n) => assert (st + st') + [n] == st + (st' + [n]);
        case ParentDir => assert (st + st')[..|st + st'| - 1] == st + st'[..|st'| - 1];
        case CurDir =>
        case RootDir =>
      }
    }
  }

  lemma {:induction false} StackNormals(names: seq<string>)
    ensures Stack(Normals(names)) == Ok(names)
  {
    if names != [] {
      StackNormals(names[1..]);
      StackOne(names[0]);
      StackConcat([Normal(names[0])], Normals(names[1..]));
      assert names == [names[0]] + names[1..];
    }
  }

  lemma StackOne(n: string)
    ensures Stack([Normal(n)]) == Ok([n])
  {
    var one := [Normal(n)];
    assert one[..|one| - 1] == [] && one[|one| - 1] == Normal(n);
    assert [] + [n] == [n];
  }

  predicate Satisfies(names: seq<string>, bad: char) {
    forall i :: 0 <= i < |names| ==> Plain(names[i]) && bad !in names[i]
  }

  lemma {:induction false} PartsNames(parts: seq<string>, first: bool, bad: char)
    requires forall i :: 0 <= i < |parts| ==> '/' !in parts[i] && bad !in parts[i]
    ensures forall c :: c in FromParts(parts, first) && c.Normal? ==> Plain(c.name) && bad !in c.name
  {
    if parts != [] {
      PartsNames(parts[1..], false, bad);
    }
  }

  lemma {:induction false} StackNames(comps: seq<Component>, bad: char)
    requires Stack(comps).Ok?
    requires forall c :: c in comps && c.Normal? ==> Plain(c.name) && bad !in c.name
    ensures Satisfies(Stack(comps).value, bad)
  {
    if comps != [] {
      StackNames(comps[..|comps| - 1], bad);
    }
  }

  /** Resolution yields plain names, made of characters of the text that was given. */
  lemma NormNames(rel: string, bad: char)
    requires Norm(rel).Ok? && bad !in rel
    ensures Satisfies(Norm(rel).value, bad)
  {
    var t := TrimLead(rel);
    TrimStartSuffix(rel, IsLead);
    SplitChars(t, '/', bad);
    PartsNames(Split(t, '/'), true, bad);
    PartsHaveNoRoot(Split(t, '/'), true);
    StackNames(Components(t), bad);
  }

  lemma NormPlain(rel: string)
    requires Norm(rel).Ok?
    ensures AllPlain(Norm(rel).value)
  {
    var t := TrimLead(rel);
    PartsNames(Split(t, '/'), true, '/');
    StackNames(Components(t), '/');
  }

  predicate LeadsWithBackslash(names: seq<string>) {
    names != [] && names[0] != "" && names[0][0] == '\\'
  }

  lemma NormJoined(names: seq<string>)
    requires AllPlain(names) && !LeadsWithBackslash(names)
    ensures Norm(Join(names)) == Ok(names)
  {
    if names == [] {
      assert Split("", '/') == [""];
    } else {
      SplitJoin(names);
      assert names[0] != "";
      assert Join(names)[0] == names[0][0];
      assert TrimLead(Join(names)) == Join(names);
      PlainParts(names, true);
      StackNormals(names);
      assert [] + Normals(names) == Normals(names);
    }
  }

  function Size(parts: seq<string>): nat {
    if parts == [] then 0 else |parts[0]| + 1 + Size(parts[1..])
  }

  lemma {:induction false} SizeOfJoin(parts: seq<string>)
    requires parts != []
    ensures Size(parts) == |Join(parts)| + 1
  {
    if |parts| > 1 {
      SizeOfJoin(parts[1..]);
    }
  }

  lemma {:induction false} SizeConcat(a: seq<string>, b: seq<string>)
    ensures Size(a + b) == Size(a) + Size(b)
  {
    if a == [] {
      assert a + b == b;
    } else {
      assert (a + b)[1..] == a[1..] + b;
      SizeConcat(a[1..], b);
    }
  }

  function NameSize(comps: seq<Component>): nat {
    if comps == [] then 0
    else NameSize(comps[..|comps| - 1]) + match comps[|comps| - 1] case Normal(n) => |n| + 1 case _ => 0
  }

  lemma {:induction false} NameSizeConcat(a: seq<Component>, b: seq<Component>)
    ensures NameSize(a + b) == NameSize(a) + NameSize(b)
  {
    if b == [] {
      assert a + b == a;
    } else {
      assert (a + b)[..|a + b| - 1] == a + b[..|b| - 1];
      NameSizeConcat(a, b[..|b| - 1]);
    }
  }

  lemma {:induction false} PartsSize(parts: seq<string>, first: bool)
    ensures NameSize(FromParts(parts, first)) <= Size(parts)
  {
    if parts != [] {
      PartsSize(parts[1..], false);
      var rest := FromParts(parts[1..], false);
      var head := FromParts(parts, first)[..|FromParts(parts, first)| - |rest|];
      assert FromParts(parts, first) == head + rest;
      NameSizeConcat(head, rest);
      assert head == [] || (|head| == 1 && head[..0] == []);
    }
  }

  lemma {:induction false} StackSize(comps: seq<Component>)
    requires Stack(comps).Ok?
    ensures Size(Stack(comps).value) <= NameSize(comps)
  {
    if comps != [] {
      var init := comps[..|comps| - 1];
      StackSize(init);
      var st := Stack(init).value;
      match comps[|comps| - 1]
      case Normal(n) => SizeConcat(st, [n]);
      case ParentDir => SizeConcat(st[..|st| - 1], st[|st| - 1..]); assert st == st[..|st| - 1] + st[|st| - 1..];
      case _ =>
    }
  }

  lemma NormShrinks(rel: string)
    requires Norm(rel).Ok?
    ensures Size(Norm(rel).value) <= |TrimLead(rel)| + 1
  {
    var t := TrimLead(rel);
    PartsSize(Split(t, '/'), true);
    SizeOfJoin(Split(t, '/'));
    JoinSplit(t);
    assert [] + FromParts(Split(t, '/'), true) == FromParts(Split(t, '/'), true);
    StackSize(Components(t));
  }

  /** Resolving a path once more, from its own relative form, changes nothing exactly when the
      form does not start with a backslash: a leading backslash is trimmed like a slash,
      although elsewhere it is an ordinary character of a name. */
  lemma ResolveIdempotent(root: seq<string>, rel: string)
    requires Norm(rel).Ok?
    ensures var names := Norm(rel).value;
      Resolve(root, Join(names)) == Ok(root + names) <==> !LeadsWithBackslash(names)
  {
    var names := Norm(rel).value;
    NormPlain(rel);
    if LeadsWithBackslash(names) {
      var s := Join(names);
      assert s[0] == '\\' && |TrimLead(s)| < |s|;
      SizeOfJoin(names);
      if Norm(s).Ok? {
        NormShrinks(s);
        SameTail(root, Norm(s).value, names);
      }
    } else {
      NormJoined(names);
    }
  }

  lemma SameTail(root: seq<string>, a: seq<string>, b: seq<string>)
    ensures root + a == root + b <==> a == b
  {
    assert (root + a)[|root|..] == a && (root + b)[|root|..] == b;
  }

  // ---- composition ----

  lemma {:induction false} PartsConcat(a: seq<string>, b: seq<string>, first: bool)
    requires a != []
    ensures FromParts(a + b, first) == FromParts(a, first) + FromParts(b, false)
  {
    assert (a + b)[1..] == a[1..] + b;
    if |a| == 1 {
      assert a[1..] + b == b;
    } else {
      PartsConcat(a[1..], b, false);
    }
  }

  lemma {:induction false} LeadingSlashesVanish(s: string)
    ensures FromParts(Split(s, '/'), false) == FromParts(Split(TrimStart(s, c => c == '/'), '/'), false)
    decreases |s|
  {
    if s != "" && s[0] == '/' {
      LeadingSlashesVanish(s[1..]);
      assert TrimStart(s, c => c == '/') == TrimStart(s[1..], c => c == '/');
      assert Split(s, '/')[1..] == Split(s[1..], '/');
    }
  }

  lemma {:induction false} StackSkipsDot(comps: seq<Component>)
    ensures Stack([CurDir] + comps) == Stack(comps)
  {
    if comps == [] {
      assert [CurDir] + comps == [CurDir] && [CurDir][..0] == [];
    } else {
      StackSkipsDot(comps[..|comps| - 1]);
      assert ([CurDir] + comps)[..|comps|] == [CurDir] + comps[..|comps| - 1];
    }
  }

  /** Slashes in front of a path, and a dot at its start, do not matter to the stack. */
  lemma StartDoesNotMatter(s: string)
    ensures var t := TrimStart(s, c => c == '/');
      Stack(Components(t)) == Stack(FromParts(Split(s, '/'), false))
  {
    var t := TrimStart(s, c => c == '/');
    LeadingSlashesVanish(s);
    var parts := Split(t, '/');
    assert [] + FromParts(parts, true) == FromParts(parts, true) == Components(t);
    if parts[0] == "." {
      assert FromParts(parts, true) == [CurDir] + FromParts(parts[1..], false);
      assert [] + FromParts(parts[1..], false) == FromParts(parts[1..], false);
      StackSkipsDot(FromParts(parts[1..], false));
    }
  }

  lemma {:induction false} TrimStartConcat(a: string, b: string, strip: char -> bool)
    ensures TrimStart(a + b, strip) ==
            if TrimStart(a, strip) == "" then TrimStart(b, strip) else TrimStart(a, strip) + b
  {
    if a == "" {
      assert a + b == b;
    } else if strip(a[0]) {
      assert (a + b)[1..] == a[1..] + b;
      TrimStartConcat(a[1..], b, strip);
    }
  }

  lemma NormOfConcat(t: string, b: string)
    requires t != "" && !IsLead(t[0]) && (Stack(Components(t)).Err? || Stack(FromParts(Split(b, '/'), false)).Ok?)
    ensures Stack(Components(t + "/" + b)) ==
            if Stack(Components(t)).Err? then Stack(Components(t))
            else Ok(Stack(Components(t)).value + Stack(FromParts(Split(b, '/'), false)).value)
  {
    var parts, more := Split(t, '/'), Split(b, '/');
    assert t + "/" + b == t + ['/'] + b;
    SplitConcat(t, b, '/');
    PartsConcat(parts, more, true);
    NoRootInFront(t);
    NoRootInFront(t + "/" + b);
    StackConcat(FromParts(parts, true), FromParts(more, false));
  }

  lemma NoRootInFront(s: string)
    requires s == "" || s[0] != '/'
    ensures Components(s) == FromParts(Split(s, '/'), true)
  {
  }

  lemma NormComposes(a: string, b: string)
    requires Norm(b).Ok?
    requires TrimLead(a) == "" || TrimLead(b) == TrimStart(b, c => c == '/')
    ensures Norm(a + "/" + b) == if Norm(a).Err? then Norm(a) else Ok(Norm(a).value + Norm(b).value)
  {
    if TrimLead(a) == "" {
      AfterNothing(a, b);
    } else {
      AfterSomething(a, b);
    }
  }

  lemma AfterNothing(a: string, b: string)
    requires TrimLead(a) == "" && Norm(b).Ok?
    ensures Norm(a) == Ok([]) && Norm(a + "/" + b) == Ok([] + Norm(b).value)
  {
    TrimAfterNothing(a, b);
    NormOfNothing();
    SameTrim(a + "/" + b, b);
    SameTrim(a, "");
    assert [] + Norm(b).value == Norm(b).value;
  }

  lemma TrimAfterNothing(a: string, b: string)
    requires TrimLead(a) == ""
    ensures TrimLead(a + "/" + b) == TrimLead(b)
  {
    var rest := ['/'] + b;
    assert a + "/" + b == a + rest;
    TrimStartConcat(a, rest, IsLead);
    assert rest[1..] == b;
  }

  lemma SameTrim(a: string, b: string)
    requires TrimLead(a) == TrimLead(b)
    ensures Norm(a) == Norm(b)
  {
  }

  lemma TrimAfterSomething(a: string, b: string)
    requires TrimLead(a) != ""
    ensures TrimLead(a + "/" + b) == TrimLead(a) + "/" + b
  {
    assert a + "/" + b == a + ("/" + b) && TrimLead(a) + "/" + b == TrimLead(a) + ("/" + b);
    TrimStartConcat(a, "/" + b, IsLead);
  }

  lemma AfterSomething(a: string, b: string)
    requires TrimLead(a) != "" && Norm(b).Ok? && TrimLead(b) == TrimStart(b, c => c == '/')
    ensures Norm(a + "/" + b) == if Norm(a).Err? then Norm(a) else Ok(Norm(a).value + Norm(b).value)
  {
    TrimAfterSomething(a, b);
    StartDoesNotMatter(b);
    NormOfConcat(TrimLead(a), b);
  }

  /** Resolving `a/b` is resolving `b` from where `a` leads, for every `b` that resolves on its
      own and has no backslash in front (or when `a` is nothing but leading separators). */
  lemma ResolveComposes(root: seq<string>, a: string, b: string)
    requires Norm(b).Ok?
    requires TrimLead(a) == "" || TrimLead(b) == TrimStart(b, c => c == '/')
    ensures Resolve(root, a + "/" + b) ==
            if Resolve(root, a).Ok? then Resolve(Resolve(root, a).value, b) else Resolve(root, a)
  {
    NormComposes(a, b);
    if Norm(a).Ok? {
      ConcatAssociates(root, Norm(a).value, Norm(b).value);
    }
  }

  lemma NormOfNothing()
    ensures Stack(Components("")) == Ok([])
  {
  }

  // ---- index keys ----

  lemma PathsArePlain(p: Path)
    ensures AllPlain(p) && !LeadsWithBackslash(p)
  {
  }

  /** Every key of the index resolves to the very path it was made from. */
  lemma KeysResolve(root: seq<string>, d: Disk, k: string)
    requires k in TreeOf(d)
    ensures exists p: Path :: p in d && p != [] && Join(p) == k && Resolve(root, k) == Ok(root + p)
  {
    var p: Path :| p in d && p != [] && Join(p) == k;
    PathsArePlain(p);
    NormJoined(p);
  }

  /** A resolved path below the root has a key, computed as the index does; the key resolves
      back to the path exactly when no name on the way holds a backslash. */
  lemma ResolvedKeysRoundTrip(root: seq<string>, rel: string)
    requires Norm(rel).Ok? && Norm(rel).value != []
    ensures var names := Norm(rel).value;
      Resolve(root, KeyOf(names)) == Ok(root + names) <==> NoBackslash(names)
  {
    var names := Norm(rel).value;
    NormPlain(rel);
    if NoBackslash(names) {
      KeyIsJoin(names);
      assert '\\' !in names[0] && names[0] != "";
      NormJoined(names);
    } else if Norm(KeyOf(names)).Ok? {
      NormNames(KeyOf(names), '\\');
      SameTail(root, Norm(KeyOf(names)).value, names);
    }
  }
}
