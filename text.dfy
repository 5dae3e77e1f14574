/**
 * The few Python `str` operations the pipeline relies on: `strip`, `strip(chars)`,
 * `rstrip(chars)`, removal of a character class (`str.replace` with a regex class),
 * `split(sep)` with an explicit one-character separator, and `sep.join`.
 */
module Text {

  /** Python's `str.isspace()` for one character; `str.strip()` removes these. */
  predicate IsSpace(c: char) {
    ('\t' <= c <= '\r') || ('\U{001C}' <= c <= ' ') || c == '\U{0085}' || c == '\U{00A0}'
    || c == '\U{1680}' || ('\U{2000}' <= c <= '\U{200A}') || c == '\U{2028}' || c == '\U{2029}'
    || c == '\U{202F}' || c == '\U{205F}' || c == '\U{3000}'
  }

  /** No character of `s` is in `cs`. */
  predicate NoneOf(s: string, cs: set<char>) {
    forall i :: 0 <= i < |s| ==> s[i] !in cs
  }

  /** Every character of `s` satisfies `p`. */
  predicate All(s: string, p: char -> bool) {
    forall i :: 0 <= i < |s| ==> p(s[i])
  }

  /** `s` with its longest prefix of characters satisfying `drop` removed. */
  function StripLeft(s: string, drop: char -> bool): (r: string)
    ensures |r| <= |s| && r == s[|s| - |r|..]
    ensures r == [] || !drop(r[0])
    ensures forall i :: 0 <= i < |s| - |r| ==> drop(s[i])
    decreases |s|
  {
    if |s| > 0 && drop(s[0]) then StripLeft(s[1..], drop) else s
  }

  /** `s` with its longest suffix of characters satisfying `drop` removed; `s.rstrip(chars)`. */
  function StripRight(s: string, drop: char -> bool): (r: string)
    ensures |r| <= |s| && r == s[..|r|]
    ensures r == [] || !drop(r[|r| - 1])
    ensures forall i :: |r| <= i < |s| ==> drop(s[i])
    decreases |s|
  {
    if |s| > 0 && drop(s[|s| - 1]) then StripRight(s[..|s| - 1], drop) else s
  }

  /** Python's `s.strip(chars)`: both ends. */
  function StripChars(s: string, drop: char -> bool): string {
    StripRight(StripLeft(s, drop), drop)
  }

  /** Python's `s.strip()`. */
  function Strip(s: string): string {
    StripChars(s, IsSpace)
  }

  /** `s` with every character of `cs` deleted (`re.sub('[...]', '', s)`). */
  function RemoveChars(s: string, cs: set<char>): (r: string)
    ensures NoneOf(r, cs) && |r| <= |s|
  {
    if s == [] then []
    else (if s[0] in cs then [] else [s[0]]) + RemoveChars(s[1..], cs)
  }

  /** The number of occurrences of `c` in `s`. */
  function Count(s: string, c: char): nat {
    if s == [] then 0 else (if s[0] == c then 1 else 0) + Count(s[1..], c)
  }

  /** Python's `s.split(sep)`: never empty, one more piece than there are separators. */
  function Split(s: string, sep: char): (r: seq<string>)
    ensures |r| == Count(s, sep) + 1
    ensures forall i :: 0 <= i < |r| ==> sep !in r[i]
    decreases |s|
  {
    if s == [] then [""]
    else
      var rest := Split(s[1..], sep);
      if s[0] == sep then [""] + rest else [[s[0]] + rest[0]] + rest[1..]
  }

  /** Python's `sep.join(xs)`. */
  function Join(xs: seq<string>, sep: char): string {
    if |xs| == 0 then ""
    else if |xs| == 1 then xs[0]
    else xs[0] + [sep] + Join(xs[1..], sep)
  }

  /** A Python list comprehension `[f(x) for x in xs]`. */
  function MapEach(xs: seq<string>, f: string -> string): (r: seq<string>)
    ensures |r| == |xs| && forall i :: 0 <= i < |xs| ==> r[i] == f(xs[i])
  {
    seq(|xs|, i requires 0 <= i < |xs| => f(xs[i]))
  }

  // ---------------------------------------------------------------- strip

  /** Stripping a string whose two end characters are kept changes nothing. */
  lemma StripCharsNoop(s: string, drop: char -> bool)
    requires s == [] || (!drop(s[0]) && !drop(s[|s| - 1]))
    ensures StripChars(s, drop) == s
  {
  }

  /** Stripping removes exactly one dropped character at each end when the inside starts
      and ends with kept characters. */
  lemma StripCharsOuter(a: char, m: string, b: char, drop: char -> bool)
    requires drop(a) && drop(b) && m != [] && !drop(m[0]) && !drop(m[|m| - 1])
    ensures StripChars([a] + m + [b], drop) == m
  {
    var s := [a] + m + [b];
    assert s[1..] == m + [b];
    assert StripLeft(s, drop) == StripLeft(m + [b], drop) == m + [b];
    assert (m + [b])[..|m|] == m;
  }

  /** Stripping twice is stripping once. */
  lemma {:induction false} StripCharsIdempotent(s: string, drop: char -> bool)
    ensures StripChars(StripChars(s, drop), drop) == StripChars(s, drop)
  {
    var l := StripLeft(s, drop);
    var r := StripRight(l, drop);
    assert StripChars(s, drop) == r;
    if r != [] {
      assert r == l[..|r|];
      assert r[0] == l[0] && !drop(l[0]);
      StripCharsNoop(r, drop);
    }
  }

  /** `rstrip` removes every trailing dropped character, so one more of them at the end
      changes nothing. */
  lemma StripRightAppend(s: string, c: char, drop: char -> bool)
    requires drop(c)
    ensures StripRight(s + [c], drop) == StripRight(s, drop)
  {
    assert (s + [c])[..|s + [c]| - 1] == s;
  }

  /** A string made only of dropped characters strips to nothing. */
  lemma StripCharsAll(s: string, drop: char -> bool)
    requires All(s, drop)
    ensures StripChars(s, drop) == []
  {
  }

  /** The result of stripping consists of characters of the input. */
  lemma StripCharsNoneOf(s: string, drop: char -> bool, bad: set<char>)
    requires NoneOf(s, bad)
    ensures NoneOf(StripChars(s, drop), bad)
  {
    var l := StripLeft(s, drop);
    assert NoneOf(l, bad) by {
      forall i | 0 <= i < |l| ensures l[i] !in bad {
        assert l[i] == s[|s| - |l| + i];
      }
    }
  }

  // ---------------------------------------------------------------- map

  /** A comprehension over a concatenation is the concatenation of the comprehensions. */
  lemma MapEachConcat(xs: seq<string>, ys: seq<string>, f: string -> string)
    ensures MapEach(xs + ys, f) == MapEach(xs, f) + MapEach(ys, f)
  {
    var l, r := MapEach(xs + ys, f), MapEach(xs, f) + MapEach(ys, f);
    forall i | 0 <= i < |l| ensures l[i] == r[i] {
      if i < |xs| {
        assert (xs + ys)[i] == xs[i];
      } else {
        assert (xs + ys)[i] == ys[i - |xs|];
      }
    }
  }

  // ---------------------------------------------------------------- remove

  lemma {:induction false} RemoveCharsConcat(a: string, b: string, cs: set<char>)
    ensures RemoveChars(a + b, cs) == RemoveChars(a, cs) + RemoveChars(b, cs)
  {
    if a != [] {
      assert (a + b)[0] == a[0];
      assert (a + b)[1..] == a[1..] + b;
      RemoveCharsConcat(a[1..], b, cs);
    } else {
      assert a + b == b;
    }
  }

  lemma {:induction false} RemoveCharsNoop(s: string, cs: set<char>)
    requires NoneOf(s, cs)
    ensures RemoveChars(s, cs) == s
  {
    if s != [] {
      RemoveCharsNoop(s[1..], cs);
    }
  }

  // ---------------------------------------------------------------- split / join

  /** Occurrences add up over a concatenation. */
  lemma {:induction false} CountConcat(a: string, b: string, c: char)
    ensures Count(a + b, c) == Count(a, c) + Count(b, c)
  {
    if a == [] {
      assert a + b == b;
    } else {
      assert (a + b)[0] == a[0];
      assert (a + b)[1..] == a[1..] + b;
      CountConcat(a[1..], b, c);
    }
  }

  /** Prepending a string to the first element of a non-empty list prepends it to the join. */
  lemma {:induction false} JoinPrependFirst(a: string, xs: seq<string>, sep: char)
    requires |xs| >= 1
    ensures Join([a + xs[0]] + xs[1..], sep) == a + Join(xs, sep)
  {
    var ys := [a + xs[0]] + xs[1..];
    if |xs| > 1 {
      assert ys[1..] == xs[1..];
    }
  }

  /** Joining the pieces of a split gives back the string. */
  lemma {:induction false} JoinSplit(s: string, sep: char)
    ensures Join(Split(s, sep), sep) == s
  {
    if s != [] {
      var rest := Split(s[1..], sep);
      JoinSplit(s[1..], sep);
      if s[0] == sep {
        assert Join([""] + rest, sep) == "" + [sep] + Join(rest, sep) by {
          assert ([""] + rest)[1..] == rest;
        }
        assert s == [s[0]] + s[1..];
      } else {
        JoinPrependFirst([s[0]], rest, sep);
        assert s == [s[0]] + s[1..];
      }
    }
  }

  /** A string without separators splits into itself. */
  lemma {:induction false} SplitNoSeparator(s: string, sep: char)
    requires sep !in s
    ensures Split(s, sep) == [s]
  {
    if s != [] {
      SplitNoSeparator(s[1..], sep);
      assert s == [s[0]] + s[1..];
    }
  }

  /** A separator-free prefix followed by a separator becomes the first piece. */
  lemma {:induction false} SplitPrefix(x: string, rest: string, sep: char)
    requires sep !in x
    ensures Split(x + [sep] + rest, sep) == [x] + Split(rest, sep)
  {
    var s := x + [sep] + rest;
    if x == [] {
      assert s == [sep] + rest;
      assert s[1..] == rest;
    } else {
      assert s[1..] == x[1..] + [sep] + rest;
      SplitPrefix(x[1..], rest, sep);
      assert x == [x[0]] + x[1..];
    }
  }

  /** Splitting a join of separator-free strings recovers them (for a non-empty list). */
  lemma {:induction false} SplitJoin(xs: seq<string>, sep: char)
    requires |xs| >= 1
    requires forall i :: 0 <= i < |xs| ==> sep !in xs[i]
    ensures Split(Join(xs, sep), sep) == xs
  {
    if |xs| == 1 {
      SplitNoSeparator(xs[0], sep);
    } else {
      SplitJoin(xs[1..], sep);
      SplitPrefix(xs[0], Join(xs[1..], sep), sep);
      assert xs == [xs[0]] + xs[1..];
    }
  }

  /** Every piece of a split of a string whose non-separator characters satisfy `p`
      consists of characters satisfying `p`. */
  lemma {:induction false} SplitAll(s: string, sep: char, p: char -> bool)
    requires forall i :: 0 <= i < |s| ==> s[i] == sep || p(s[i])
    ensures forall i :: 0 <= i < |Split(s, sep)| ==> All(Split(s, sep)[i], p)
  {
    if s != [] {
      SplitAll(s[1..], sep, p);
      assert forall i :: 1 <= i < |s| ==> s[1..][i - 1] == s[i];
    }
  }

  /** Every piece of a split is built from characters of the string. */
  lemma {:induction false} SplitNoneOf(s: string, sep: char, bad: set<char>)
    requires NoneOf(s, bad)
    ensures forall i :: 0 <= i < |Split(s, sep)| ==> NoneOf(Split(s, sep)[i], bad)
  {
    if s != [] {
      SplitNoneOf(s[1..], sep, bad);
    }
  }
}
