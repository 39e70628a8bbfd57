/** The registry of vaults beside the vault directories on disk, under create, rename and remove. */
module Registry {
  import opened Wrappers
  import opened Text
  import opened Keys
  import opened Vault
  import opened TreeWalk
  import Resolve

  // ---- vault names ----

  function Utf8Len(c: char): nat {
    if c < '\U{80}' then 1 else if c < '\U{800}' then 2 else if c < '\U{10000}' then 3 else 4
  }

  /** `str::len`: bytes, not characters. */
  function ByteLen(s: string): nat {
    if s == "" then 0 else Utf8Len(s[0]) + ByteLen(s[1..])
  }

  function LowerChar(c: char): char {
    if 'A' <= c <= 'Z' then c - 'A' + 'a' else c
  }

  function Lower(s: string): (r: string)
    ensures |r| == |s|
  {
    seq(|s|, i requires 0 <= i < |s| => LowerChar(s[i]))
  }

  predicate Forbidden(c: char) {
    c in {'/', '\\', ':', '*', '?', '"', '<', '>', '|'}
  }

  predicate ReservedBase(base: string) {
    || base in {"con", "prn", "aux", "nul"}
    || (|base| == 4 && (base[..3] == "com" || base[..3] == "lpt") && '1' <= base[3] <= '9')
  }

  /** Device names stay reserved whatever follows the first dot. */
  predicate Reserved(name: string) {
    ReservedBase(Lower(Split(name, '.')[0]))
  }

  predicate IsValidVaultName(name: string) {
    && name != "" && ByteLen(name) <= 255
    && (forall i :: 0 <= i < |name| ==> !Forbidden(name[i]))
    && name[0] != '.'
    && !Reserved(name)
  }

  /** What `.` does not match in the documented pattern. */
  predicate IsLineBreak(c: char) {
    c == '\n' || c == '\r' || c == '\U{2028}' || c == '\U{2029}'
  }

  predicate OneLine(s: string) {
    forall i :: 0 <= i < |s| ==> !IsLineBreak(s[i])
  }

  /** The documented pattern: a reserved word in any case, alone, or with a dot and the rest of
      one line after it. */
  ghost predicate MatchesPattern(name: string) {
    exists base: string, rest: string :: PatternParts(name, base, rest)
  }

  predicate PatternParts(name: string, base: string, rest: string) {
    && name == base + rest && '.' !in base && ReservedBase(Lower(base))
    && (rest == "" || (rest[0] == '.' && OneLine(rest)))
  }

  /** What stands after the first part of a name, the dot included. */
  function AfterBase(name: string): string {
    FirstPart(name);
    name[|Split(name, '.')[0]|..]
  }

  /** The code finds a name reserved in one more case than the pattern does: a device name with a
      line break somewhere after its dot. */
  lemma ReservedAgainstPattern(name: string)
    ensures MatchesPattern(name) <==> Reserved(name) && OneLine(AfterBase(name))
  {
    FirstPart(name);
    if Reserved(name) && OneLine(AfterBase(name)) {
      var base := Split(name, '.')[0];
      assert PatternParts(name, base, AfterBase(name));
    }
    if base: string, rest: string :| PatternParts(name, base, rest) {
      BaseIsFirstPart(base, rest);
    }
  }

  /** A name that the code refuses and the pattern lets pass. */
  lemma BrokenDeviceName()
    ensures Reserved("con.\n") && !MatchesPattern("con.\n")
  {
    var name := "con.\n";
    assert name == "con" + ".\n";
    BaseIsFirstPart("con", ".\n");
    assert Lower("con") == "con";
    assert AfterBase(name) == ".\n" && IsLineBreak(AfterBase(name)[1]);
    ReservedAgainstPattern(name);
  }

  lemma BaseIsFirstPart(base: string, rest: string)
    requires '.' !in base && (rest == "" || rest[0] == '.')
    ensures Split(base + rest, '.')[0] == base
  {
    SplitAtom(base, '.');
    if rest == "" {
      assert base + rest == base;
    } else {
      assert base + rest == base + ['.'] + rest[1..];
      SplitConcat(base, rest[1..], '.');
    }
  }

  lemma {:induction false} FirstPart(s: string)
    ensures var p := Split(s, '.')[0];
      |p| <= |s| && s[..|p|] == p && (|p| == |s| || s[|p|] == '.')
  {
    if s != "" {
      FirstPart(s[1..]);
    }
  }

  /** The rule as it is documented, with its limit on characters. */
  ghost predicate Documented(name: string) {
    && name != "" && |name| <= 255
    && (forall i :: 0 <= i < |name| ==> name[i] !in "/\\:*?\"<>|")
    && name[0] != '.'
    && !MatchesPattern(name)
  }

  lemma {:induction false} BytesCoverCharacters(s: string)
    ensures ByteLen(s) >= |s|
    ensures ByteLen(s) == |s| <==> forall i :: 0 <= i < |s| ==> s[i] < '\U{80}'
  {
    if s != "" {
      BytesCoverCharacters(s[1..]);
      assert forall i :: 1 <= i < |s| ==> s[i] == s[1..][i - 1];
      assert forall i :: 0 <= i < |s| - 1 ==> s[1..][i] == s[i + 1];
    }
  }

  /** For every name: the code accepts what the documented rule accepts, except that it counts
      bytes against the limit, and that a line break does not save a device name. */
  lemma ValidAgainstDocumented(name: string)
    ensures IsValidVaultName(name) <==>
            Documented(name) && ByteLen(name) <= 255 && !(Reserved(name) && !OneLine(AfterBase(name)))
  {
    BytesCoverCharacters(name);
    ReservedAgainstPattern(name);
  }

  /** On one line of ASCII, code and rule agree. */
  lemma AsciiNamesAgree(name: string)
    requires forall i :: 0 <= i < |name| ==> name[i] < '\U{80}'
    requires OneLine(name)
    ensures IsValidVaultName(name) <==> Documented(name)
  {
    BytesCoverCharacters(name);
    ValidAgainstDocumented(name);
    FirstPart(name);
  }

  /** A valid name is one plain component, so it resolves to a direct child of any root. */
  lemma ValidNameIsAChild(root: seq<string>, name: string)
    requires IsValidVaultName(name)
    ensures Resolve.Resolve(root, name) == Ok(root + [name])
  {
    forall c | c in name ensures !Forbidden(c) {
      var i :| 0 <= i < |name| && name[i] == c;
    }
    assert !Forbidden(name[0]);
    assert '/' !in name && '\\' !in name;
    Resolve.NormJoined([name]);
  }

  lemma {:induction false} BytesNotCharacters(n: nat, c: char)
    ensures ByteLen(seq(n, i => c)) == n * Utf8Len(c)
  {
    if n > 0 {
      assert seq(n, i => c)[1..] == seq(n - 1, i => c);
      BytesNotCharacters(n - 1, c);
    }
  }

  /** Characters of two, three and four bytes: the limit of 255 counts bytes, where the documented
      rule counts characters. */
  lemma LongNameRefused(n: nat, c: char)
    requires n >= 1 && c in {'\U{E9}', '\U{20AC}', '\U{1F4D3}'}
    ensures IsValidVaultName(seq(n, i => c)) <==>
            n <= (if c == '\U{E9}' then 127 else if c == '\U{20AC}' then 85 else 63)
  {
    var name := seq(n, i => c);
    BytesNotCharacters(n, c);
    assert '.' !in name;
    SplitAtom(name, '.');
    assert Lower(name)[0] == c;
  }

  const DEVICES: seq<string> := [
    "con", "prn", "aux", "nul",
    "com1", "com2", "com3", "com4", "com5", "com6", "com7", "com8", "com9",
    "lpt1", "lpt2", "lpt3", "lpt4", "lpt5", "lpt6", "lpt7", "lpt8", "lpt9"]

  /** The letter `lower`, or the same letter in upper case. */
  predicate SameLetter(c: char, lower: char) {
    c == lower || ('a' <= lower <= 'z' && c as int + 32 == lower as int)
  }

  predicate SameWord(s: string, lower: string) {
    |s| == |lower| && forall i :: 0 <= i < |s| ==> SameLetter(s[i], lower[i])
  }

  /** A name is reserved exactly when what stands before its first dot is, in upper or lower case,
      one of the 22 device names. */
  lemma ReservedMeans(base: string, rest: string)
    requires '.' !in base && (rest == "" || rest[0] == '.')
    ensures Reserved(base + rest) <==> exists k :: 0 <= k < |DEVICES| && SameWord(base, DEVICES[k])
  {
    BaseIsFirstPart(base, rest);
    DeviceWords(Lower(base));
    forall k | 0 <= k < |DEVICES| ensures Lower(base) == DEVICES[k] <==> SameWord(base, DEVICES[k]) {
      LowerMeans(base, DEVICES[k]);
    }
  }

  lemma DeviceWords(word: string)
    ensures ReservedBase(word) <==> exists k :: 0 <= k < |DEVICES| && word == DEVICES[k]
  {
    if ReservedBase(word) {
      if word == "con" { assert word == DEVICES[0]; }
      else if word == "prn" { assert word == DEVICES[1]; }
      else if word == "aux" { assert word == DEVICES[2]; }
      else if word == "nul" { assert word == DEVICES[3]; }
      else {
        var n := word[3] as int - '1' as int;
        assert word == word[..3] + [word[3]];
        assert word == DEVICES[if word[0] == 'c' then 4 + n else 13 + n];
      }
    }
  }

  lemma LowerMeans(s: string, word: string)
    requires forall i :: 0 <= i < |word| ==> !('A' <= word[i] <= 'Z')
    ensures Lower(s) == word <==> SameWord(s, word)
  {
    if SameWord(s, word) {
      forall i | 0 <= i < |s| ensures Lower(s)[i] == word[i] {
        assert SameLetter(s[i], word[i]);
      }
    }
    if Lower(s) == word {
      forall i | 0 <= i < |s| ensures SameLetter(s[i], word[i]) {
        assert word[i] == LowerChar(s[i]);
      }
    }
  }

  // ---- the registry and the disk ----

  /** What lies directly under the vault root: a directory with its content, something else, or a
      link that leads nowhere. */
  datatype Child = Folder(content: Disk) | Other | Dangling

  /** The index of one vault: where it looks, and the tree of its first walk. */
  datatype Warm = Warm(root: seq<string>, built: Tree)

  datatype Server = Server(root: seq<string>, children: map<string, Child>, vaults: map<string, Warm>)

  /** How the file operations of one request turn out: whether each fails although nothing
      speaks against it, and what a failed recursive removal leaves behind. */
  datatype Io = Io(fails: bool, innerFails: bool, left: Disk)

  datatype Op =
    | Create(name: string, io: Io)
    | Rename(vault: string, name: string, io: Io)
    | Remove(target: Option<string>, io: Io)

  ghost function Index(root: seq<string>, name: string, content: Disk): Warm {
    Warm(root + [name], TreeOf(content))
  }

  /** `discover`: every directory below the vault root is a vault. */
  ghost function Discovered(root: seq<string>, children: map<string, Child>): Server {
    Server(root, children, map n | n in children && children[n].Folder? :: Index(root, n, children[n].content))
  }

  function EmptyDisk(): Disk { map[[] := Dir] }

  /** A fresh vault holds nothing but its settings directory. */
  function NewVault(): Disk {
    var hidden: Path := [DotObsidian()];
    map[[] := Dir, hidden := Dir]
  }

  function DotObsidian(): Name {
    assert ".obsidian"[0] == '.' && ".obsidian"[1] == 'o';
    ".obsidian"
  }

  ghost function Created(s: Server, name: string, io: Io): (Server, nat) {
    if !IsValidVaultName(name) then (s, 400)
    else if name in s.children then (s, 409)
    else if io.fails then (s, 500)
    else if io.innerFails then (s.(children := s.children[name := Folder(EmptyDisk())]), 500)
    else
      (s.(children := s.children[name := Folder(NewVault())],
          vaults := s.vaults[name := Index(s.root, name, NewVault())]), 200)
  }

  ghost function Renamed(s: Server, vault: string, name: string, io: Io): (Server, nat) {
    if !IsValidVaultName(name) then (s, 400)
    else if vault !in s.vaults then (s, 404)
    else if name in s.children && !s.children[name].Dangling? then (s, 409)
    else if io.fails || name in s.children || vault !in s.children || !s.children[vault].Folder? then (s, 500)
    else
      var content := s.children[vault].content;
      (Server(s.root,
              (s.children - {vault})[name := Folder(content)],
              (s.vaults - {vault})[name := Index(s.root, name, content)]), 200)
  }

  function Removed(s: Server, vault: Option<string>, io: Io): (Server, nat) {
    if vault.None? || vault.value !in s.vaults then (s, 404)
    else if vault.value !in s.children || !s.children[vault.value].Folder? then (s, 500)
    else if io.fails then (s.(children := s.children[vault.value := Folder(io.left)]), 500)
    else (s.(children := s.children - {vault.value}, vaults := s.vaults - {vault.value}), 200)
  }

  ghost function Served(s: Server, op: Op): (Server, nat) {
    match op
    case Create(name, io) => Created(s, name, io)
    case Rename(vault, name, io) => Renamed(s, vault, name, io)
    case Remove(vault, io) => Removed(s, vault, io)
  }

  class VaultRegistry {
    const vaultRoot: seq<string>
    var vaults: map<string, Warm>

    constructor Discover(vaultRoot: seq<string>, children: map<string, Child>)
      ensures this.vaultRoot == vaultRoot && vaults == Discovered(vaultRoot, children).vaults
    {
      this.vaultRoot, vaults := vaultRoot, map[];
      new;
      var rest := children.Keys;
      while rest != {}
        invariant rest <= children.Keys
        invariant this.vaultRoot == vaultRoot
        invariant vaults == map n | n in children && n !in rest && children[n].Folder? ::
                              Index(vaultRoot, n, children[n].content)
        decreases rest
      {
        var n :| n in rest;
        if children[n].Folder? {
          InsertVault(n, vaultRoot + [n], children[n].content);
        }
        rest := rest - {n};
      }
    }

    method InsertVault(name: string, path: seq<string>, content: Disk)
      modifies this`vaults
      ensures vaults == old(vaults)[name := Warm(path, TreeOf(content))]
    {
      var built := BuildTree(content);
      vaults := vaults[name := Warm(path, built)];
    }

    method RemoveVault(name: string) returns (present: bool)
      modifies this`vaults
      ensures present == (name in old(vaults)) && vaults == old(vaults) - {name}
    {
      present := name in vaults;
      vaults := vaults - {name};
    }
  }

  /** The directory below which the vaults live. */
  class VaultDir {
    var children: map<string, Child>

    constructor (children: map<string, Child>)
      ensures this.children == children
    {
      this.children := children;
    }
  }

  ghost function View(reg: VaultRegistry, dir: VaultDir): Server
    reads reg, dir
  {
    Server(reg.vaultRoot, dir.children, reg.vaults)
  }

  method VaultCreate(reg: VaultRegistry, dir: VaultDir, name: string, io: Io) returns (code: nat)
    modifies reg, dir
    ensures (View(reg, dir), code) == Created(old(View(reg, dir)), name, io)
  {
    if !IsValidVaultName(name) {
      return 400;
    }
    var path := reg.vaultRoot + [name];
    if name in dir.children {
      return 409;
    }
    if io.fails {
      return 500;
    }
    dir.children := dir.children[name := Folder(EmptyDisk())];
    if io.innerFails {
      return 500;
    }
    ghost var before := old(dir.children);
    assert before[name := Folder(EmptyDisk())][name := Folder(NewVault())] == before[name := Folder(NewVault())];
    dir.children := dir.children[name := Folder(NewVault())];
    reg.InsertVault(name, path, NewVault());
    code := 200;
  }

  method VaultRename(reg: VaultRegistry, dir: VaultDir, vault: string, name: string, io: Io) returns (code: nat)
    modifies reg, dir
    ensures (View(reg, dir), code) == Renamed(old(View(reg, dir)), vault, name, io)
  {
    if !IsValidVaultName(name) {
      return 400;
    }
    if vault !in reg.vaults {
      return 404;
    }
    var newPath := reg.vaultRoot + [name];
    if name in dir.children && !dir.children[name].Dangling? {
      return 409;
    }
    if io.fails || name in dir.children || vault !in dir.children || !dir.children[vault].Folder? {
      return 500;
    }
    var content := dir.children[vault].content;
    dir.children := (dir.children - {vault})[name := Folder(content)];
    var present := reg.RemoveVault(vault);
    reg.InsertVault(name, newPath, content);
    code := 200;
  }

  method VaultRemove(reg: VaultRegistry, dir: VaultDir, vault: Option<string>, io: Io) returns (code: nat)
    modifies reg, dir
    ensures (View(reg, dir), code) == Removed(old(View(reg, dir)), vault, io)
  {
    if vault.None? || vault.value !in reg.vaults {
      return 404;
    }
    if vault.value !in dir.children || !dir.children[vault.value].Folder? {
      return 500;
    }
    if io.fails {
      dir.children := dir.children[vault.value := Folder(io.left)];
      return 500;
    }
    dir.children := dir.children - {vault.value};
    var present := reg.RemoveVault(vault.value);
    code := 200;
  }

  // ---- serial runs ----

  /** Every registered name has an index rooted at its own directory, and that directory exists. */
  ghost predicate Consistent(s: Server) {
    forall n :: n in s.vaults ==> s.vaults[n].root == s.root + [n] && n in s.children && s.children[n].Folder?
  }

  ghost function Run(s: Server, ops: seq<Op>): Server
    decreases |ops|
  {
    if ops == [] then s else Run(Served(s, ops[0]).0, ops[1..])
  }

  lemma StepConsistent(s: Server, op: Op)
    requires Consistent(s)
    ensures Consistent(Served(s, op).0) && Served(s, op).0.root == s.root
  {
    match op
    case Create(_, _) =>
    case Rename(_, _, _) =>
    case Remove(_, _) =>
  }

  lemma {:induction false} RunConsistent(s: Server, ops: seq<Op>)
    requires Consistent(s)
    ensures Consistent(Run(s, ops)) && Run(s, ops).root == s.root
    decreases |ops|
  {
    if ops != [] {
      StepConsistent(s, ops[0]);
      RunConsistent(Served(s, ops[0]).0, ops[1..]);
    }
  }

  /** Whatever is asked, and however the file operations turn out, the registry names only
      vaults that are there, each indexed at its own path. */
  lemma RegistryMatchesDisk(root: seq<string>, children: map<string, Child>, ops: seq<Op>, name: string)
    requires name in Run(Discovered(root, children), ops).vaults
    ensures var s := Run(Discovered(root, children), ops);
      s.vaults[name].root == root + [name] && name in s.children && s.children[name].Folder?
  {
    RunConsistent(Discovered(root, children), ops);
  }

  predicate Names(op: Op, n: string) {
    match op
    case Create(name, _) => n == name
    case Rename(vault, name, _) => n == vault || n == name
    case Remove(vault, _) => vault == Some(n)
  }

  ghost predicate SameAt(s: Server, s': Server, n: string) {
    && (n in s'.children <==> n in s.children) && (n in s.children ==> s'.children[n] == s.children[n])
    && (n in s'.vaults <==> n in s.vaults) && (n in s.vaults ==> s'.vaults[n] == s.vaults[n])
  }

  /** A request touches only what it names, on disk and in the registry; if it is refused for
      its name, its target or a conflict, it touches nothing. */
  lemma OnlyTheNamed(s: Server, op: Op)
    ensures var (s', code) := Served(s, op);
      && s'.root == s.root
      && (forall n :: !Names(op, n) ==> SameAt(s, s', n))
      && (code in {400, 404, 409} ==> s' == s)
      && (code != 200 ==> s'.vaults == s.vaults)
  {
    var (s', code) := Served(s, op);
    forall n | !Names(op, n) ensures SameAt(s, s', n) {
      match op
      case Create(_, _) =>
      case Rename(_, _, _) =>
      case Remove(_, _) =>
    }
  }

  /** A rename that succeeds moves one directory with all it holds, re-keys its vault with an
      index of the same content at the new path, and keeps the number of vaults; a rename onto
      its own name is a conflict. */
  lemma RenameMoves(s: Server, vault: string, name: string, io: Io)
    requires Consistent(s) && Renamed(s, vault, name, io).1 == 200
    ensures var s' := Renamed(s, vault, name, io).0;
      && name != vault && vault in s.children && name !in s.vaults
      && vault !in s'.children && vault !in s'.vaults
      && name in s'.children && s'.children[name] == s.children[vault]
      && name in s'.vaults && s'.vaults[name] == Warm(s.root + [name], TreeOf(s.children[vault].content))
      && |s'.vaults| == |s.vaults| && |s'.children| == |s.children|
  {
    Rekeyed(s.vaults, vault, name, Index(s.root, name, s.children[vault].content));
    Rekeyed(s.children, vault, name, s.children[vault]);
  }

  lemma Rekeyed<T>(m: map<string, T>, k: string, k': string, v: T)
    requires k in m && k' !in m
    ensures |(m - {k})[k' := v]| == |m|
  {
  }

  lemma PutThenDrop<T>(m: map<string, T>, k: string, v: T)
    requires k !in m
    ensures m[k := v] - {k} == m
  {
  }

  lemma MoveAndBack<T>(m: map<string, T>, k: string, k': string, v: T)
    requires k in m && k' !in m
    ensures ((m - {k})[k' := v] - {k'})[k := m[k]] == m
  {
  }

  /** When a creation is answered how, and what a successful one leaves: a directory that holds an
      empty `.obsidian` and nothing else, and a vault of that name whose index says so. */
  lemma CreateMeans(s: Server, name: string, io: Io)
    ensures var (s', code) := Created(s, name, io);
      && (code == 400 <==> !IsValidVaultName(name))
      && (code == 409 <==> IsValidVaultName(name) && name in s.children)
      && (code == 500 <==> IsValidVaultName(name) && name !in s.children && (io.fails || io.innerFails))
      && (code != 200 ==> code in {400, 409, 500})
      && (code == 200 ==>
            && name in s'.children && s'.children[name].Folder? && name in s'.vaults
            && TreeOf(s'.children[name].content) == map[".obsidian" := DirEntry]
            && s'.vaults[name] == Warm(s.root + [name], map[".obsidian" := DirEntry]))
  {
    FreshTree();
  }

  lemma FreshTree()
    ensures TreeOf(NewVault()) == map[".obsidian" := DirEntry]
  {
    var hidden: Path := [DotObsidian()];
    assert NewVault()[hidden] == Dir;
    assert Lists(map[".obsidian" := DirEntry], NewVault());
    ListsExactly(map[".obsidian" := DirEntry], NewVault());
  }

  /** When a rename is answered how; what a successful one does is RenameMoves. */
  lemma RenameAnswers(s: Server, vault: string, name: string, io: Io)
    ensures var code, taken := Renamed(s, vault, name, io).1, name in s.children && !s.children[name].Dangling?;
      && (code == 400 <==> !IsValidVaultName(name))
      && (code == 404 <==> IsValidVaultName(name) && vault !in s.vaults)
      && (code == 409 <==> IsValidVaultName(name) && vault in s.vaults && taken)
      && (code == 200 <==>
            && IsValidVaultName(name) && vault in s.vaults && name !in s.children
            && vault in s.children && s.children[vault].Folder? && !io.fails)
      && (code !in {200, 400, 404, 409} ==> code == 500)
  {
  }

  /** A removal that succeeds leaves neither directory nor vault; one that fails half way leaves
      the vault, and what could not be removed. */
  lemma RemoveMeans(s: Server, vault: string, io: Io)
    requires Consistent(s)
    ensures var (s', code) := Removed(s, Some(vault), io);
      && (code == 404 <==> vault !in s.vaults) && (code == 500 <==> vault in s.vaults && io.fails)
      && (code == 200 <==> vault in s.vaults && !io.fails)
      && (code == 200 ==> vault !in s'.vaults && vault !in s'.children)
      && (code == 500 ==> vault in s'.vaults && vault in s'.children && s'.children[vault] == Folder(io.left))
  {
  }

  /** Create, then remove, is as if nothing had happened. */
  lemma CreateRemove(s: Server, name: string, io: Io, io': Io)
    requires Consistent(s) && Created(s, name, io).1 == 200 && !io'.fails
    ensures Removed(Created(s, name, io).0, Some(name), io') == (s, 200)
  {
    assert name !in s.vaults && name !in s.children;
    PutThenDrop(s.children, name, Folder(NewVault()));
    PutThenDrop(s.vaults, name, Index(s.root, name, NewVault()));
  }

  /** Renaming a vault and back restores everything, provided its first name was a valid one and
      its index was up to date: a discovered vault can have a name that cannot be given again. */
  lemma RenameBack(s: Server, vault: string, name: string, io: Io, io': Io)
    requires Consistent(s) && Renamed(s, vault, name, io).1 == 200 && !io'.fails
    ensures Renamed(Renamed(s, vault, name, io).0, name, vault, io') == (s, 200) <==>
            IsValidVaultName(vault) && s.vaults[vault].built == TreeOf(s.children[vault].content)
  {
    RenameMoves(s, vault, name, io);
    var content := s.children[vault].content;
    MoveAndBack(s.children, vault, name, Folder(content));
    MoveAndBack(s.vaults, vault, name, Index(s.root, name, content));
    if IsValidVaultName(vault) {
      var back := Renamed(Renamed(s, vault, name, io).0, name, vault, io');
      assert back.1 == 200 && back.0.children == s.children;
      var moved := (s.vaults - {vault})[name := Index(s.root, name, content)];
      assert back.0.vaults == (moved - {name})[vault := Index(s.root, vault, content)];
      assert vault in back.0.vaults && back.0.vaults[vault] == Index(s.root, vault, content);
    }
  }

  /** A creation that failed can be repeated once the file operations work, exactly when it was
      the vault directory itself that could not be made. If it was the settings directory, the
      vault directory stays behind with no vault to it: asking again is a conflict, and there is
      nothing to remove. */
  lemma HalfCreated(s: Server, name: string, io: Io, again: Io)
    requires Created(s, name, io).1 == 500 && !again.fails && !again.innerFails
    ensures var s' := Created(s, name, io).0;
      && (Created(s', name, again).1 == 200 <==> io.fails)
      && s'.vaults == s.vaults
      && (!io.fails ==> Created(s', name, again) == (s', 409))
      && (!io.fails && Consistent(s) ==> Removed(s', Some(name), again) == (s', 404))
  {
  }

  // ---- conservation over runs ----

  /** How many vaults a request adds. */
  ghost function Added(s: Server, op: Op): int {
    if Served(s, op).1 != 200 then 0
    else match op case Create(_, _) => 1 case Rename(_, _, _) => 0 case Remove(_, _) => -1
  }

  ghost function AddedBy(s: Server, ops: seq<Op>): int
    decreases |ops|
  {
    if ops == [] then 0 else Added(s, ops[0]) + AddedBy(Served(s, ops[0]).0, ops[1..])
  }

  lemma StepCount(s: Server, op: Op)
    requires Consistent(s)
    ensures |Served(s, op).0.vaults| == |s.vaults| + Added(s, op)
  {
    if Served(s, op).1 == 200 {
      match op
      case Create(name, _) =>
        assert name !in s.vaults;
        PutCount(s.vaults, name, Index(s.root, name, NewVault()));
      case Rename(vault, name, io) => RenameMoves(s, vault, name, io);
      case Remove(target, _) => DropCount(s.vaults, target.value);
    } else {
      OnlyTheNamed(s, op);
    }
  }

  lemma PutCount<T>(m: map<string, T>, k: string, v: T)
    requires k !in m
    ensures |m[k := v]| == |m| + 1
  {
    assert m[k := v].Keys == m.Keys + {k};
    assert |m[k := v].Keys| == |m.Keys| + 1;
  }

  lemma DropCount<T>(m: map<string, T>, k: string)
    requires k in m
    ensures |m - {k}| == |m| - 1
  {
    PutCount(m - {k}, k, m[k]);
    assert (m - {k})[k := m[k]] == m;
  }

  /** Over every serial run the number of vaults is what it was, plus the creations and minus
      the removals that were answered 200; renames and error replies do not change it. */
  lemma {:induction false} VaultsConserved(s: Server, ops: seq<Op>)
    requires Consistent(s)
    ensures |Run(s, ops).vaults| == |s.vaults| + AddedBy(s, ops)
    decreases |ops|
  {
    if ops != [] {
      StepCount(s, ops[0]);
      StepConsistent(s, ops[0]);
      VaultsConserved(Served(s, ops[0]).0, ops[1..]);
    }
  }

  /** What no request of a run names stays as it was, on disk and in the registry. */
  lemma {:induction false} UnnamedUntouched(s: Server, ops: seq<Op>, n: string)
    requires forall op :: op in ops ==> !Names(op, n)
    ensures SameAt(s, Run(s, ops), n)
    decreases |ops|
  {
    if ops != [] {
      assert ops[0] in ops && forall op :: op in ops[1..] ==> op in ops;
      OnlyTheNamed(s, ops[0]);
      UnnamedUntouched(Served(s, ops[0]).0, ops[1..], n);
    }
  }
}
