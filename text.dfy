/**
 * The string primitives the scripts rely on: Python's notion of whitespace,
 * `str.strip`, `str.split()` (on whitespace runs), `str.split(sep)`,
 * `sep.join(parts)`, `str.upper`, ASCII digits and Python's ordering of strings.
 */
module Text {

  /** The characters for which Python's `str.isspace()` holds. */
  const Whitespace: set<char> := {
    '\t', '\n', '\U{000B}', '\U{000C}', '\r', '\U{001C}', '\U{001D}', '\U{001E}', '\U{001F}', ' ',
    '\U{0085}', '\U{00A0}', '\U{1680}', '\U{2000}', '\U{2001}', '\U{2002}', '\U{2003}', '\U{2004}',
    '\U{2005}', '\U{2006}', '\U{2007}', '\U{2008}', '\U{2009}', '\U{200A}', '\U{2028}', '\U{2029}',
    '\U{202F}', '\U{205F}', '\U{3000}'
  }

  predicate IsSpace(c: char)
  {
    c in Whitespace
  }

  predicate NoSpace(s: string)
  {
    forall i :: 0 <= i < |s| ==> !IsSpace(s[i])
  }

  predicate AllSpace(s: string)
  {
    forall i :: 0 <= i < |s| ==> IsSpace(s[i])
  }

  predicate IsDigit(c: char)
  {
    '0' <= c <= '9'
  }

  predicate AllDigits(s: string)
  {
    forall i :: 0 <= i < |s| ==> IsDigit(s[i])
  }

  /** The value of a string of decimal digits. */
  function NumOf(s: string): nat
    requires AllDigits(s)
  {
    if s == [] then 0 else 10 * NumOf(s[..|s| - 1]) + (s[|s| - 1] as int - '0' as int)
  }

  /** `s` without its leading whitespace. */
  function TrimStart(s: string): string
  {
    if s != [] && IsSpace(s[0]) then TrimStart(s[1..]) else s
  }

  lemma {:induction false} TrimStartShape(s: string)
    ensures var r := TrimStart(s);
      |r| <= |s| && r == s[|s| - |r|..] && AllSpace(s[..|s| - |r|]) && (r != [] ==> !IsSpace(r[0]))
  {
    if s != [] && IsSpace(s[0]) {
      TrimStartShape(s[1..]);
      var r := TrimStart(s[1..]);
      assert s[1..][..|s| - 1 - |r|] == s[1..|s| - |r|];
    }
  }

  /** `s` without its trailing whitespace. */
  function TrimEnd(s: string): string
  {
    if s != [] && IsSpace(s[|s| - 1]) then TrimEnd(s[..|s| - 1]) else s
  }

  lemma {:induction false} TrimEndShape(s: string)
    ensures var r := TrimEnd(s);
      |r| <= |s| && r == s[..|r|] && AllSpace(s[|r|..]) && (r != [] ==> !IsSpace(r[|r| - 1]))
  {
    if s != [] && IsSpace(s[|s| - 1]) {
      var t := s[..|s| - 1];
      TrimEndShape(t);
      var r := TrimEnd(t);
      assert t[..|r|] == s[..|r|];
      assert s[|r|..] == t[|r|..] + [s[|s| - 1]];
    }
  }

  /** Python's `str.strip()`: `s` without its leading and its trailing whitespace. */
  function Strip(s: string): (r: string)
    ensures r == [] <==> AllSpace(s)
    ensures r != [] ==> !IsSpace(r[0]) && !IsSpace(r[|r| - 1])
  {
    var t := TrimStart(s);
    TrimStartShape(s);
    TrimEndShape(t);
    assert t != [] ==> t[0] == s[|s| - |t|];
    TrimEnd(t)
  }

  lemma {:induction false} TrimStartOf(a: string, y: string)
    requires AllSpace(a)
    requires y == [] || !IsSpace(y[0])
    ensures TrimStart(a + y) == y
  {
    if a != [] {
      assert (a + y)[0] == a[0] && (a + y)[1..] == a[1..] + y;
      TrimStartOf(a[1..], y);
    }
  }

  lemma {:induction false} TrimEndOf(y: string, b: string)
    requires AllSpace(b)
    requires y == [] || !IsSpace(y[|y| - 1])
    ensures TrimEnd(y + b) == y
    decreases |b|
  {
    if b != [] {
      assert (y + b)[|y + b| - 1] == b[|b| - 1] && (y + b)[..|y + b| - 1] == y + b[..|b| - 1];
      TrimEndOf(y, b[..|b| - 1]);
    } else {
      assert y + b == y;
    }
  }

  /** Stripping removes exactly the whitespace around a string that neither starts nor ends with it. */
  lemma StripSurrounded(a: string, s: string, b: string)
    requires AllSpace(a) && AllSpace(b)
    requires s != [] ==> !IsSpace(s[0]) && !IsSpace(s[|s| - 1])
    ensures Strip(a + s + b) == s
  {
    if s == [] {
      assert a + s + b == a + b;
      assert AllSpace(a + b);
    } else {
      assert a + s + b == a + (s + b);
      assert (s + b)[0] == s[0];
      TrimStartOf(a, s + b);
      TrimEndOf(s, b);
    }
  }

  /** The longest prefix of `t` that holds no whitespace. */
  function Word(t: string): string
  {
    if t == [] || IsSpace(t[0]) then [] else [t[0]] + Word(t[1..])
  }

  lemma {:induction false} WordShape(t: string)
    ensures var w := Word(t);
      |w| <= |t| && w == t[..|w|] && NoSpace(w) && (|w| == |t| || IsSpace(t[|w|]))
  {
    if t != [] && !IsSpace(t[0]) { WordShape(t[1..]); }
  }

  /** Python's `str.split()` with no separator: the maximal runs of non-whitespace, in order. */
  function Split(s: string): seq<string>
    decreases |s|
  {
    var t := TrimStart(s);
    if t == [] then []
    else
      TrimStartShape(s);
      WordShape(t);
      assert t[0] == s[|s| - |t|];
      [Word(t)] + Split(t[|Word(t)|..])
  }

  /** Non-empty strings without whitespace, as `str.split()` produces them. */
  predicate AreTokens(ts: seq<string>)
  {
    forall i :: 0 <= i < |ts| ==> ts[i] != [] && NoSpace(ts[i])
  }

  /** Every token is non-empty and free of whitespace; there are none exactly when `s` is all whitespace. */
  lemma {:induction false} SplitTokens(s: string)
    ensures AreTokens(Split(s))
    ensures Split(s) == [] <==> AllSpace(s)
    decreases |s|
  {
    var t := TrimStart(s);
    TrimStartShape(s);
    if t != [] {
      WordShape(t);
      assert t[0] == s[|s| - |t|];
      SplitTokens(t[|Word(t)|..]);
    }
  }

  /** Python's `sep.join(parts)`. */
  function Join(sep: string, parts: seq<string>): string
  {
    if |parts| == 0 then ""
    else if |parts| == 1 then parts[0]
    else parts[0] + sep + Join(sep, parts[1..])
  }

  lemma JoinNonEmpty(sep: string, parts: seq<string>)
    requires parts != [] && parts[0] != []
    ensures Join(sep, parts) != []
  {
  }

  lemma {:induction false} WordOf(w: string, rest: string)
    requires NoSpace(w)
    requires rest == [] || IsSpace(rest[0])
    ensures Word(w + rest) == w
  {
    if w != [] {
      assert (w + rest)[1..] == w[1..] + rest;
      WordOf(w[1..], rest);
    }
  }

  lemma SplitSkipSpace(x: string)
    ensures Split(" " + x) == Split(x)
  {
    assert (" " + x)[1..] == x;
  }

  lemma SplitWord(w: string, rest: string)
    requires w != [] && NoSpace(w)
    requires rest == [] || IsSpace(rest[0])
    ensures Split(w + rest) == [w] + Split(rest)
  {
    var s := w + rest;
    assert s[0] == w[0];
    assert TrimStart(s) == s;
    WordOf(w, rest);
    assert s[|w|..] == rest;
    WordShape(s);
  }

  lemma SplitToken(w: string)
    requires w != [] && NoSpace(w)
    ensures Split(w) == [w]
  {
    SplitWord(w, []);
    assert w + [] == w;
    assert Split([]) == [] by { assert TrimStart([]) == []; }
  }

  /** Splitting the single-space join of whitespace-free, non-empty tokens gives the tokens back. */
  lemma {:induction false} SplitJoin(ts: seq<string>)
    requires AreTokens(ts)
    ensures Split(Join(" ", ts)) == ts
  {
    if |ts| == 0 {
      assert TrimStart([]) == [];
    } else if |ts| == 1 {
      var w := ts[0];
      assert ts == [w];
      assert Split(w) == [w] by { SplitToken(w); }
    } else {
      SplitJoin(ts[1..]);
      SplitJoinStep(ts);
    }
  }

  lemma SplitJoinStep(ts: seq<string>)
    requires |ts| > 1 && ts[0] != [] && NoSpace(ts[0])
    requires Split(Join(" ", ts[1..])) == ts[1..]
    ensures Split(Join(" ", ts)) == ts
  {
    var w, rest := ts[0], Join(" ", ts[1..]);
    assert ts == [w] + ts[1..];
    assert Join(" ", ts) == w + (" " + rest);
    assert Split(w + (" " + rest)) == [w] + Split(rest) by { SplitCons(w, rest); }
  }

  lemma SplitCons(w: string, rest: string)
    requires w != [] && NoSpace(w)
    ensures Split(w + (" " + rest)) == [w] + Split(rest)
  {
    SplitWord(w, " " + rest);
    SplitSkipSpace(rest);
  }

  /** The number of occurrences of `c` in `s`. */
  function CountChar(s: string, c: char): nat
  {
    if s == [] then 0 else (if s[0] == c then 1 else 0) + CountChar(s[1..], c)
  }

  /** Python's `s.split(c)`: the pieces between the occurrences of `c`; there is always at least one. */
  function SplitOn(s: string, c: char): (r: seq<string>)
    ensures |r| == CountChar(s, c) + 1
    decreases |s|
  {
    if s == [] then [[]]
    else
      var rest := SplitOn(s[1..], c);
      if s[0] == c then [[]] + rest else [[s[0]] + rest[0]] + rest[1..]
  }

  /** No piece of a split holds the separator. */
  lemma {:induction false} SplitOnPieces(s: string, c: char)
    ensures forall i :: 0 <= i < |SplitOn(s, c)| ==> c !in SplitOn(s, c)[i]
    decreases |s|
  {
    if s != [] {
      SplitOnPieces(s[1..], c);
      var rest := SplitOn(s[1..], c);
      if s[0] != c {
        assert c !in rest[0];
        assert c !in [s[0]] + rest[0];
      }
    }
  }

  /** Joining the pieces of a split puts the separators back. */
  lemma {:induction false} JoinSplitOn(s: string, c: char)
    ensures Join([c], SplitOn(s, c)) == s
  {
    if s != [] {
      var rest := SplitOn(s[1..], c);
      JoinSplitOn(s[1..], c);
      if s[0] == c {
        assert Join([c], [[]] + rest) == [] + [c] + Join([c], rest);
      } else {
        var parts := [[s[0]] + rest[0]] + rest[1..];
        if |rest| > 1 {
          assert parts[1..] == rest[1..];
          assert Join([c], rest) == rest[0] + [c] + Join([c], rest[1..]);
        }
      }
    }
  }

  lemma {:induction false} SplitOnPrefix(w: string, rest: string, c: char)
    requires c !in w
    ensures SplitOn(w + rest, c) == [w + SplitOn(rest, c)[0]] + SplitOn(rest, c)[1..]
  {
    if w != [] {
      var r := SplitOn(rest, c);
      var x := w + rest;
      assert w[0] in w;
      assert x[0] == w[0] != c && x[1..] == w[1..] + rest;
      assert c !in w[1..] by { assert forall ch :: ch in w[1..] ==> ch in w; }
      SplitOnPrefix(w[1..], rest, c);
      var r' := SplitOn(x[1..], c);
      assert SplitOn(x, c) == [[x[0]] + r'[0]] + r'[1..];
      assert ([w[1..] + r[0]] + r[1..])[1..] == r[1..];
      assert [w[0]] + (w[1..] + r[0]) == w + r[0];
    } else {
      var r := SplitOn(rest, c);
      assert w + rest == rest && w + r[0] == r[0];
      assert r == [r[0]] + r[1..];
    }
  }

  /** Splitting a join on its one-character separator gives the pieces back, when no piece holds it. */
  lemma {:induction false} SplitOnJoin(ps: seq<string>, c: char)
    requires ps != []
    requires forall i :: 0 <= i < |ps| ==> c !in ps[i]
    ensures SplitOn(Join([c], ps), c) == ps
  {
    if |ps| == 1 {
      SplitOnPrefix(ps[0], [], c);
      assert ps[0] + [] == ps[0];
    } else {
      var rest := Join([c], ps[1..]);
      assert Join([c], ps) == ps[0] + ([c] + rest);
      SplitOnPrefix(ps[0], [c] + rest, c);
      assert ([c] + rest)[1..] == rest;
      SplitOnJoin(ps[1..], c);
      assert ps[0] + [] == ps[0];
    }
  }

  /** Python's `str.upper()` on ASCII letters. */
  function UpperChar(c: char): char
  {
    if 'a' <= c <= 'z' then (c as int - 32) as char else c
  }

  function Upper(s: string): (r: string)
    ensures |r| == |s|
  {
    seq(|s|, i requires 0 <= i < |s| => UpperChar(s[i]))
  }

  /** Python's `str.isupper()` on a one-character string. */
  predicate IsUpperChar(c: char)
  {
    'A' <= c <= 'Z'
  }

  predicate StartsWith(s: string, prefix: string)
  {
    |prefix| <= |s| && s[..|prefix|] == prefix
  }

  /** Python's `<` on strings: lexicographic by code point; a proper prefix is smaller. */
  predicate StrLess(a: string, b: string)
    decreases |a|
  {
    if a == [] then b != []
    else if b == [] then false
    else if a[0] != b[0] then a[0] < b[0]
    else StrLess(a[1..], b[1..])
  }

  lemma {:induction false} StrLessIrreflexive(a: string)
    ensures !StrLess(a, a)
    decreases |a|
  {
    if a != [] { StrLessIrreflexive(a[1..]); }
  }

  lemma {:induction false} StrLessTransitive(a: string, b: string, c: string)
    requires StrLess(a, b) && StrLess(b, c)
    ensures StrLess(a, c)
    decreases |a|
  {
    if a != [] && b != [] && c != [] && a[0] == b[0] && b[0] == c[0] {
      StrLessTransitive(a[1..], b[1..], c[1..]);
    }
  }

  lemma {:induction false} StrLessTotal(a: string, b: string)
    requires a != b
    ensures StrLess(a, b) || StrLess(b, a)
    decreases |a|
  {
    if a != [] && b != [] && a[0] == b[0] {
      assert a == [a[0]] + a[1..] && b == [b[0]] + b[1..];
      StrLessTotal(a[1..], b[1..]);
    }
  }

  /** Every finite, non-empty set of strings has a least element. */
  lemma {:induction false} LeastExists(s: set<string>)
    requires s != {}
    ensures exists m :: m in s && forall x :: x in s ==> !StrLess(x, m)
    decreases |s|
  {
    var y :| y in s;
    if s == {y} {
      StrLessIrreflexive(y);
    } else {
      LeastExists(s - {y});
      var m :| m in s - {y} && forall x :: x in s - {y} ==> !StrLess(x, m);
      if StrLess(y, m) {
        forall x | x in s
          ensures !StrLess(x, y)
        {
          if x == y { StrLessIrreflexive(y); }
          else if StrLess(x, y) { StrLessTransitive(x, y, m); }
        }
      } else {
        assert forall x :: x in s ==> !StrLess(x, m);
      }
    }
  }
}
