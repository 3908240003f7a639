/** JavaScript's `split` and `join` on one separator character. */
module Strings {

  /** `parts.join(sep)`. */
  function Join(parts: seq<string>, sep: char): string
  {
    if |parts| == 0 then ""
    else if |parts| == 1 then parts[0]
    else parts[0] + [sep] + Join(parts[1..], sep)
  }

  /** `s.split(sep)`: the pieces between occurrences of `sep`. Joining them again
      gives `s`, and no piece contains the separator. */
  function Split(s: string, sep: char): (parts: seq<string>)
    ensures |parts| >= 1
    ensures Join(parts, sep) == s
    ensures forall i :: 0 <= i < |parts| ==> sep !in parts[i]
  {
    if s == [] then [""]
    else if s[0] == sep then
      var rest := Split(s[1..], sep);
      assert s == [sep] + s[1..];
      [""] + rest
    else
      var rest := Split(s[1..], sep);
      var parts := [[s[0]] + rest[0]] + rest[1..];
      assert parts[1..] == rest[1..];
      assert s == [s[0]] + s[1..];
      parts
  }

  /** `parts[parts.length - 1]` after `s.split(sep)`. */
  function LastPiece(s: string, sep: char): string
  {
    var parts := Split(s, sep);
    parts[|parts| - 1]
  }

  lemma {:induction false} JoinLast(parts: seq<string>, sep: char)
    requires |parts| >= 2
    ensures Join(parts, sep) == Join(parts[..|parts| - 1], sep) + [sep] + parts[|parts| - 1]
  {
    if |parts| > 2 {
      JoinLast(parts[1..], sep);
      assert parts[1..][..|parts| - 2] == parts[..|parts| - 1][1..];
    } else {
      assert parts[..1] == [parts[0]];
    }
  }

  /** The characters after the last separator (proof device). */
  ghost function TailAfterLast(s: string, sep: char): string
  {
    if s == [] || s[|s| - 1] == sep then [] else TailAfterLast(s[..|s| - 1], sep) + [s[|s| - 1]]
  }

  /** The characters before the first separator (proof device). */
  ghost function HeadBeforeFirst(s: string, sep: char): string
  {
    if s == [] || s[0] == sep then [] else [s[0]] + HeadBeforeFirst(s[1..], sep)
  }

  lemma {:induction false} TailAfterLastOf(a: string, l: string, sep: char)
    requires sep !in l
    ensures TailAfterLast(a + [sep] + l, sep) == l
  {
    var s := a + [sep] + l;
    if l != [] {
      assert s[..|s| - 1] == a + [sep] + l[..|l| - 1];
      TailAfterLastOf(a, l[..|l| - 1], sep);
      assert l == l[..|l| - 1] + [l[|l| - 1]];
    }
  }

  lemma {:induction false} HeadBeforeFirstOf(l: string, a: string, sep: char)
    requires sep !in l
    ensures HeadBeforeFirst(l + [sep] + a, sep) == l
  {
    var s := l + [sep] + a;
    if l != [] {
      assert s[1..] == l[1..] + [sep] + a;
      HeadBeforeFirstOf(l[1..], a, sep);
      assert l == [l[0]] + l[1..];
    }
  }

  /** Two strings that end in the separator followed by a separator-free tail
      have the same tail. */
  lemma SameTailAfterSeparator(a: string, l: string, b: string, m: string, sep: char)
    requires a + [sep] + l == b + [sep] + m
    requires sep !in l && sep !in m
    ensures l == m
  {
    TailAfterLastOf(a, l, sep);
    TailAfterLastOf(b, m, sep);
  }

  /** Two strings that start with a separator-free head followed by the separator
      have the same head. */
  lemma SameHeadBeforeSeparator(l: string, a: string, m: string, b: string, sep: char)
    requires l + [sep] + a == m + [sep] + b
    requires sep !in l && sep !in m
    ensures l == m
  {
    HeadBeforeFirstOf(l, a, sep);
    HeadBeforeFirstOf(m, b, sep);
  }

  /** The separator occurs in a join of at least two pieces. */
  lemma SeparatorInJoin(parts: seq<string>, sep: char)
    requires |parts| >= 2
    ensures sep in Join(parts, sep)
  {
    assert Join(parts, sep) == parts[0] + [sep] + Join(parts[1..], sep);
    assert Join(parts, sep)[|parts[0]|] == sep;
  }

  /** Joining separator-free pieces loses nothing: the pieces are determined by
      the joined string. */
  lemma {:induction false} JoinInjective(p: seq<string>, q: seq<string>, sep: char)
    requires |p| >= 1 && |q| >= 1
    requires forall i :: 0 <= i < |p| ==> sep !in p[i]
    requires forall i :: 0 <= i < |q| ==> sep !in q[i]
    requires Join(p, sep) == Join(q, sep)
    ensures p == q
  {
    if |p| == 1 && |q| == 1 {
    } else if |p| == 1 {
      SeparatorInJoin(q, sep);
    } else if |q| == 1 {
      SeparatorInJoin(p, sep);
    } else {
      SameHeadBeforeSeparator(p[0], Join(p[1..], sep), q[0], Join(q[1..], sep), sep);
      var x := Join(p, sep);
      assert Join(p[1..], sep) == x[|p[0]| + 1..];
      assert Join(q[1..], sep) == x[|q[0]| + 1..];
      JoinInjective(p[1..], q[1..], sep);
      assert p == [p[0]] + p[1..] && q == [q[0]] + q[1..];
    }
  }

  /** `split` undoes `join` of at least one separator-free piece. */
  lemma SplitJoin(parts: seq<string>, sep: char)
    requires |parts| >= 1
    requires forall i :: 0 <= i < |parts| ==> sep !in parts[i]
    ensures Split(Join(parts, sep), sep) == parts
  {
    JoinInjective(Split(Join(parts, sep), sep), parts, sep);
  }

  /** The last piece of `prefix + sep + tail` is `tail` when `tail` holds no
      separator, whatever `prefix` holds. */
  lemma LastPieceAfterSeparator(prefix: string, tail: string, sep: char)
    requires sep !in tail
    ensures LastPiece(prefix + [sep] + tail, sep) == tail
  {
    var s := prefix + [sep] + tail;
    var parts := Split(s, sep);
    assert s[|prefix|] == sep;
    JoinLast(parts, sep);
    SameTailAfterSeparator(Join(parts[..|parts| - 1], sep), parts[|parts| - 1], prefix, tail, sep);
  }

  /** A string without the separator is its own last piece. */
  lemma LastPieceWithoutSeparator(s: string, sep: char)
    requires sep !in s
    ensures LastPiece(s, sep) == s
  {
    SplitJoin([s], sep);
  }
}
