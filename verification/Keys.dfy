/** Vault-relative paths and the `/`-joined strings that key the index. */
module Keys {
  import opened Text

  /** A directory entry name: non-empty, not `.` or `..`, and without `/`. The index also
      replaces `\` by `/`, so a name with a backslash has no key of its own; see KeyFaithful. */
  predicate IsName(s: string) {
    s != "" && '/' !in s && '\\' !in s && s != "." && s != ".."
  }

  type Name = s: string | IsName(s) witness "a"

  /** A path below some root; `[]` is the root itself. */
  type Path = seq<Name>

  function Join(p: seq<string>): string {
    if p == [] then "" else if |p| == 1 then p[0] else p[0] + "/" + Join(p[1..])
  }

  /** The key the code computes for arbitrary component names. */
  function KeyOf(p: seq<string>): string {
    Replace(Join(p), '\\', '/')
  }

  predicate NoSlash(p: seq<string>) {
    forall i :: 0 <= i < |p| ==> '/' !in p[i]
  }

  predicate NoBackslash(p: seq<string>) {
    forall i :: 0 <= i < |p| ==> '\\' !in p[i]
  }

  /** `rel` names a directory above `key`: the test behind the subtree removal. */
  predicate Under(rel: string, key: string) {
    rel + "/" <= key
  }

  lemma {:induction false} JoinConcat(p: seq<string>, q: seq<string>)
    requires p != [] && q != []
    ensures Join(p + q) == Join(p) + "/" + Join(q)
  {
    if |p| == 1 {
      assert (p + q)[1..] == q;
    } else {
      JoinConcat(p[1..], q);
      assert (p + q)[1..] == p[1..] + q;
      assert Join(p + q) == p[0] + "/" + (Join(p[1..]) + "/" + Join(q));
      assert p[0] + "/" + (Join(p[1..]) + "/" + Join(q)) == (p[0] + "/" + Join(p[1..])) + "/" + Join(q);
    }
  }

  lemma {:induction false} SplitJoin(p: seq<string>)
    requires p != [] && NoSlash(p)
    ensures Split(Join(p), '/') == p
  {
    if |p| == 1 {
      SplitAtom(p[0], '/');
    } else {
      SplitAtom(p[0], '/');
      SplitJoin(p[1..]);
      SplitConcat(p[0], Join(p[1..]), '/');
      assert p == [p[0]] + p[1..];
    }
  }

  lemma {:induction false} JoinSplit(s: string)
    ensures Join(Split(s, '/')) == s
  {
    if s != "" {
      JoinSplit(s[1..]);
      var rest := Split(s[1..], '/');
      if s[0] == '/' {
        assert ([""] + rest)[1..] == rest;
        assert Join(Split(s, '/')) == "" + "/" + Join(rest);
      } else {
        var first := [s[0]] + rest[0];
        if |rest| == 1 {
          assert Split(s, '/') == [first];
        } else {
          assert ([first] + rest[1..])[1..] == rest[1..];
          assert Join(Split(s, '/')) == first + "/" + Join(rest[1..]);
          assert Join(rest) == rest[0] + "/" + Join(rest[1..]);
          assert first + "/" + Join(rest[1..]) == [s[0]] + (rest[0] + "/" + Join(rest[1..]));
        }
      }
      assert s == [s[0]] + s[1..];
    }
  }

  lemma JoinNonEmpty(p: Path)
    requires p != []
    ensures Join(p) != ""
  {
  }

  lemma JoinInjective(p: Path, q: Path)
    requires Join(p) == Join(q)
    ensures p == q
  {
    if p == [] {
      if q != [] { JoinNonEmpty(q); }
    } else if q == [] {
      JoinNonEmpty(p);
    } else {
      SplitJoin(p);
      SplitJoin(q);
    }
  }

  /** The subtree test on strings is exactly the strict-ancestor test on components, so a
      sibling such as `ab` or `a.md` is never taken for a descendant of `a`. */
  lemma SubtreePrefix(p: Path, q: Path)
    requires p != [] && q != []
    ensures Under(Join(p), Join(q)) <==> p < q
  {
    if Under(Join(p), Join(q)) {
      UnderSplits(Join(p), q);
      SplitJoin(p);
    }
    if p < q {
      assert q == p + q[|p|..];
      JoinConcat(p, q[|p|..]);
    }
  }

  /** Whatever string stands before a `/` in a key is itself the key of an ancestor. */
  lemma UnderSplits(rel: string, q: Path)
    requires q != [] && Under(rel, Join(q))
    ensures var p := Split(rel, '/'); p < q && Join(p) == rel
  {
    var rest := Join(q)[|rel| + 1..];
    assert Join(q) == rel + ['/'] + rest;
    SplitConcat(rel, rest, '/');
    SplitJoin(q);
    JoinSplit(rel);
  }

  /** A raw path can be read back from its key exactly when no component holds a backslash. */
  lemma KeyFaithful(p: seq<string>)
    requires p != [] && NoSlash(p)
    ensures Split(KeyOf(p), '/') == p <==> NoBackslash(p)
  {
    if NoBackslash(p) {
      KeyIsJoin(p);
      SplitJoin(p);
    } else {
      SplitChars(KeyOf(p), '/', '\\');
    }
  }

  lemma {:induction false} KeyIsJoin(p: seq<string>)
    requires NoBackslash(p)
    ensures KeyOf(p) == Join(p) && '\\' !in Join(p)
  {
    if |p| > 1 {
      KeyIsJoin(p[1..]);
    }
  }

  /** Two different files share one key once a backslash is involved. */
  lemma BackslashCollision()
    ensures KeyOf(["a\\b"]) == KeyOf(["a", "b"])
  {
  }
}
