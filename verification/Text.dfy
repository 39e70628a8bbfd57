/** The string operations the server relies on: split, trim, replace. */
module Text {
  import opened Sequences

  /** `str::split(sep)`: always at least one part, and no part holds the separator. */
  function Split(s: string, sep: char): (parts: seq<string>)
    ensures |parts| >= 1
    ensures forall i :: 0 <= i < |parts| ==> sep !in parts[i]
  {
    if s == "" then [""]
    else
      var rest := Split(s[1..], sep);
      if s[0] == sep then [""] + rest else [[s[0]] + rest[0]] + rest[1..]
  }

  lemma {:induction false} SplitAtom(s: string, sep: char)
    requires sep !in s
    ensures Split(s, sep) == [s]
  {
    if s == "" {
    } else {
      SplitAtom(s[1..], sep);
      assert s == [s[0]] + s[1..];
    }
  }

  /** Splitting distributes over a separator placed anywhere. */
  lemma {:induction false} SplitConcat(s: string, t: string, sep: char)
    ensures Split(s + [sep] + t, sep) == Split(s, sep) + Split(t, sep)
  {
    if s == "" {
      assert s + [sep] + t == [sep] + t;
    } else {
      var u := s + [sep] + t;
      assert u[0] == s[0] && u[1..] == s[1..] + [sep] + t;
      SplitConcat(s[1..], t, sep);
      ConsConcat(s[0], sep, Split(s[1..], sep), Split(t, sep));
    }
  }

  lemma ConsConcat(c: char, sep: char, a: seq<string>, b: seq<string>)
    requires a != []
    ensures if c == sep then [""] + (a + b) == ([""] + a) + b
            else [[c] + (a + b)[0]] + (a + b)[1..] == ([[c] + a[0]] + a[1..]) + b
  {
  }

  /** Every character of a part is a character of the text. */
  lemma {:induction false} SplitChars(s: string, sep: char, c: char)
    requires c !in s
    ensures forall i :: 0 <= i < |Split(s, sep)| ==> c !in Split(s, sep)[i]
  {
    if s != "" {
      SplitChars(s[1..], sep, c);
    }
  }

  function Replace(s: string, from: char, to: char): (r: string)
    ensures |r| == |s|
    ensures forall i :: 0 <= i < |s| ==> r[i] == if s[i] == from then to else s[i]
  {
    seq(|s|, i requires 0 <= i < |s| => if s[i] == from then to else s[i])
  }

  function TrimStart(s: string, strip: char -> bool): (r: string)
    ensures |r| <= |s|
    ensures r != "" ==> !strip(r[0])
  {
    if s != "" && strip(s[0]) then TrimStart(s[1..], strip) else s
  }

  function TrimEnd(s: string, strip: char -> bool): (r: string)
    ensures |r| <= |s|
  {
    if s != "" && strip(s[|s| - 1]) then TrimEnd(s[..|s| - 1], strip) else s
  }

  lemma {:induction false} TrimStartSuffix(s: string, strip: char -> bool)
    ensures var r := TrimStart(s, strip); r == s[|s| - |r|..]
  {
    if s != "" && strip(s[0]) {
      TrimStartSuffix(s[1..], strip);
    }
  }

  lemma {:induction false} TrimEndLast(s: string, strip: char -> bool)
    ensures var r := TrimEnd(s, strip); r != "" ==> !strip(r[|r| - 1])
  {
    if s != "" && strip(s[|s| - 1]) {
      TrimEndLast(s[..|s| - 1], strip);
    }
  }

  /** Unicode White_Space, the class `str::trim` strips. */
  predicate IsSpace(c: char) {
    || '\U{0009}' <= c <= '\U{000D}' || c == ' ' || c == '\U{0085}' || c == '\U{00A0}'
    || c == '\U{1680}' || '\U{2000}' <= c <= '\U{200A}' || c == '\U{2028}' || c == '\U{2029}'
    || c == '\U{202F}' || c == '\U{205F}' || c == '\U{3000}'
  }

  function Trim(s: string): string {
    TrimStart(TrimEnd(s, IsSpace), IsSpace)
  }

  lemma TrimTrims(s: string)
    ensures Trimmed(Trim(s))
  {
    var t := TrimEnd(s, IsSpace);
    TrimEndLast(s, IsSpace);
    TrimStartSuffix(t, IsSpace);
  }

  lemma TrimKeeps(s: string)
    requires Trimmed(s)
    ensures Trim(s) == s
  {
  }

  predicate Trimmed(s: string) {
    s != "" ==> !IsSpace(s[0]) && !IsSpace(s[|s| - 1])
  }

  function NonEmptyTrimmed(parts: seq<string>): (r: seq<string>)
    ensures forall x :: x in r ==> x != "" && Trimmed(x)
  {
    if parts == [] then []
    else
      var x := Trim(parts[0]);
      TrimTrims(parts[0]);
      (if x == "" then [] else [x]) + NonEmptyTrimmed(parts[1..])
  }

  /** Comma-separated lists: trimmed, empty items dropped. */
  function ParseList(raw: string): (r: seq<string>)
    ensures forall x :: x in r ==> x != "" && Trimmed(x)
  {
    NonEmptyTrimmed(Split(raw, ','))
  }

  predicate Spaces(s: string) {
    forall i :: 0 <= i < |s| ==> IsSpace(s[i])
  }

  lemma {:induction false} TrimStartDrops(before: string, s: string)
    requires Spaces(before) && (s != "" ==> !IsSpace(s[0]))
    ensures TrimStart(before + s, IsSpace) == s
  {
    if before == "" {
      assert before + s == s;
    } else {
      TrimStartDrops(before[1..], s);
      assert (before + s)[1..] == before[1..] + s;
    }
  }

  lemma {:induction false} TrimEndDrops(s: string, after: string)
    requires Spaces(after) && (s != "" ==> !IsSpace(s[|s| - 1]))
    ensures TrimEnd(s + after, IsSpace) == s
  {
    if after == "" {
      assert s + after == s;
    } else {
      var init := after[..|after| - 1];
      TrimEndDrops(s, init);
      assert (s + after)[..|s + after| - 1] == s + init;
    }
  }

  /** Trimming takes away the space around a text and nothing else. */
  lemma TrimMeans(before: string, s: string, after: string)
    requires Spaces(before) && Spaces(after) && Trimmed(s)
    ensures Trim(before + s + after) == s
  {
    if s == "" {
      assert before + s + after == "" + (before + after);
      TrimEndDrops("", before + after);
    } else {
      TrimEndDrops(before + s, after);
      TrimStartDrops(before, s);
    }
  }

  /** Nothing is left exactly when there was nothing but space. */
  lemma TrimLeaves(s: string)
    ensures Trim(s) == "" <==> Spaces(s)
  {
    if Spaces(s) {
      TrimMeans(s, "", "");
      assert s + "" + "" == s;
    }
    if Trim(s) == "" {
      NoneLeft(s);
    }
  }

  lemma NoneLeft(s: string)
    requires Trim(s) == ""
    ensures Spaces(s)
  {
    var t := TrimEnd(s, IsSpace);
    TrimEndLast(s, IsSpace);
    StartLeft(t);
    EndLeft(s);
  }

  lemma {:induction false} StartLeft(s: string)
    requires TrimStart(s, IsSpace) == ""
    ensures Spaces(s)
  {
    if s != "" {
      StartLeft(s[1..]);
      assert forall i :: 0 < i < |s| ==> s[i] == s[1..][i - 1];
    }
  }

  lemma {:induction false} EndLeft(s: string)
    ensures TrimEnd(s, IsSpace) == "" ==> Spaces(s)
    ensures Spaces(TrimEnd(s, IsSpace)) ==> TrimEnd(s, IsSpace) == ""
  {
    if s != "" {
      EndLeft(s[..|s| - 1]);
    }
  }

  /** A list of two lists with a comma between them has the items of the first, then those of the
      second. */
  lemma ListConcat(a: string, b: string)
    ensures ParseList(a + "," + b) == ParseList(a) + ParseList(b)
  {
    SplitConcat(a, b, ',');
    ItemsConcat(Split(a, ','), Split(b, ','));
  }

  lemma {:induction false} ItemsConcat(a: seq<string>, b: seq<string>)
    ensures NonEmptyTrimmed(a + b) == NonEmptyTrimmed(a) + NonEmptyTrimmed(b)
  {
    if a == [] {
      assert a + b == b;
    } else {
      ItemsConcat(a[1..], b);
      RestOfConcat(a, b);
      var x := Trim(a[0]);
      ConcatAssociates(if x == "" then [] else [x], NonEmptyTrimmed(a[1..]), NonEmptyTrimmed(b));
    }
  }

  /** A list without a comma has one item, the text without the space around it, or none if nothing
      else is there. */
  lemma ListItem(before: string, item: string, after: string)
    requires Spaces(before) && Spaces(after) && Trimmed(item) && ',' !in item
    ensures ParseList(before + item + after) == if item == "" then [] else [item]
  {
    var raw := before + item + after;
    forall c | c in before || c in after ensures c != ',' {
      assert IsSpace(c);
    }
    SplitAtom(raw, ',');
    TrimMeans(before, item, after);
    assert NonEmptyTrimmed([raw]) == (if item == "" then [] else [item]) + NonEmptyTrimmed([]);
  }
}
