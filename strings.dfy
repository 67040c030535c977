/**
 * The handful of Python `str` operations the agent relies on, stated over
 * `seq<char>`: `join`, `split(sep)`, `split()`, `strip(chars)`, slicing,
 * `str(int)` and `int(str)`, each with the lemmas that tie it to its inverse.
 */
module Strings {
  import opened Wrappers

  /** Python's `sep.join(parts)`. */
  function Join(parts: seq<string>, sep: string): string
  {
    if |parts| == 0 then ""
    else if |parts| == 1 then parts[0]
    else parts[0] + sep + Join(parts[1..], sep)
  }

  /** The literal pieces and the substituted values of a format string, run together. */
  function Format(pieces: seq<string>): string
  {
    if |pieces| == 0 then "" else pieces[0] + Format(pieces[1..])
  }

  lemma JoinCons(a: string, rest: seq<string>, sep: string)
    requires |rest| >= 1
    ensures Join([a] + rest, sep) == a + sep + Join(rest, sep)
  {
    assert ([a] + rest)[1..] == rest;
  }

  lemma JoinOne(a: string, sep: string)
    ensures Join([a], sep) == a
  {
  }

  /** Python's `s.split(c)` for a one-character separator: never empty, and no piece holds `c`. */
  function Split(s: string, c: char): (r: seq<string>)
    ensures |r| >= 1
    ensures forall i :: 0 <= i < |r| ==> c !in r[i]
  {
    if |s| == 0 then [""]
    else
      var rest := Split(s[1..], c);
      if s[0] == c then [""] + rest
      else [[s[0]] + rest[0]] + rest[1..]
  }

  /** There is one piece more than there are separators. */
  lemma {:induction false} SplitCount(s: string, c: char)
    ensures |Split(s, c)| == multiset(s)[c] + 1
  {
    if |s| > 0 {
      SplitCount(s[1..], c);
      assert s == [s[0]] + s[1..];
    }
  }

  /** Joining the pieces of a split with the separator gives back the original string. */
  lemma {:induction false} JoinSplit(s: string, c: char)
    ensures Join(Split(s, c), [c]) == s
  {
    if |s| > 0 {
      var rest := Split(s[1..], c);
      JoinSplit(s[1..], c);
      if s[0] == c {
        assert Split(s, c) == [""] + rest;
        assert ([""] + rest)[1..] == rest;
      } else if |rest| == 1 {
        assert Split(s, c) == [[s[0]] + rest[0]];
      } else {
        assert Split(s, c) == [[s[0]] + rest[0]] + rest[1..];
        assert ([[s[0]] + rest[0]] + rest[1..])[1..] == rest[1..];
        assert Join(rest, [c]) == rest[0] + [c] + Join(rest[1..], [c]);
      }
    }
  }

  /** A string without the separator splits into itself alone. */
  lemma {:induction false} SplitNoSep(p: string, c: char)
    requires c !in p
    ensures Split(p, c) == [p]
  {
    if |p| > 0 {
      SplitNoSep(p[1..], c);
      assert [p[0]] + p[1..] == p;
    }
  }

  /** A separator-free piece followed by the separator splits off as the first piece. */
  lemma {:induction false} SplitPieceThenSep(p: string, c: char, t: string)
    requires c !in p
    ensures Split(p + [c] + t, c) == [p] + Split(t, c)
  {
    if |p| > 0 {
      SplitPieceThenSep(p[1..], c, t);
      assert (p + [c] + t)[1..] == p[1..] + [c] + t;
      assert [p[0]] + p[1..] == p;
    } else {
      assert (p + [c] + t) == [c] + t;
      assert ([c] + t)[1..] == t;
    }
  }

  /** A separator splits a string into the pieces before it and the pieces after it. */
  lemma {:induction false} SplitAround(p: string, c: char, t: string)
    ensures Split(p + [c] + t, c) == Split(p, c) + Split(t, c)
  {
    if |p| == 0 {
      assert p + [c] + t == [c] + t;
      SplitConsSep(t, c);
    } else {
      SplitAround(p[1..], c, t);
      SplitAroundStep(p[0], p[1..], c, t);
      assert [p[0]] + p[1..] == p;
    }
  }

  lemma SplitAroundStep(x: char, p: string, c: char, t: string)
    requires Split(p + [c] + t, c) == Split(p, c) + Split(t, c)
    ensures Split([x] + p + [c] + t, c) == Split([x] + p, c) + Split(t, c)
  {
    assert [x] + p + [c] + t == [x] + (p + [c] + t);
    if x == c {
      SplitConsSep(p + [c] + t, c);
      SplitConsSep(p, c);
      SeqAssoc([""], Split(p, c), Split(t, c));
    } else {
      SplitConsOther(x, p + [c] + t, c);
      SplitConsOther(x, p, c);
      SplitOtherAround(x, Split(p, c), Split(t, c));
    }
  }

  lemma SeqAssoc(a: seq<string>, b: seq<string>, d: seq<string>)
    ensures a + (b + d) == (a + b) + d
  {
  }

  lemma StrAssoc(a: string, b: string, d: string)
    ensures a + (b + d) == (a + b) + d
  {
  }

  lemma SplitOtherAround(x: char, r: seq<string>, st: seq<string>)
    requires |r| >= 1
    ensures [[x] + (r + st)[0]] + (r + st)[1..] == ([[x] + r[0]] + r[1..]) + st
  {
    assert (r + st)[1..] == r[1..] + st;
  }

  lemma SplitConsSep(u: string, c: char)
    ensures Split([c] + u, c) == [""] + Split(u, c)
  {
    assert ([c] + u)[1..] == u;
  }

  lemma SplitConsOther(x: char, u: string, c: char)
    requires x != c
    ensures Split([x] + u, c) == [[x] + Split(u, c)[0]] + Split(u, c)[1..]
  {
    assert ([x] + u)[1..] == u;
  }

  /** The last piece of `s.split(c)`, Python's `s.split(c)[-1]`. */
  function LastPiece(s: string, c: char): (r: string)
    ensures c !in r
  {
    Split(s, c)[|Split(s, c)| - 1]
  }

  /** Whatever comes before the last separator, the last piece is what follows it. */
  lemma LastPieceAfterSep(p: string, c: char, name: string)
    requires c !in name
    ensures LastPiece(p + [c] + name, c) == name
  {
    SplitAround(p, c, name);
    SplitNoSep(name, c);
  }

  /** Splitting a join of separator-free pieces gives back the pieces. */
  lemma {:induction false} SplitJoin(parts: seq<string>, c: char)
    requires |parts| >= 1
    requires forall i :: 0 <= i < |parts| ==> c !in parts[i]
    ensures Split(Join(parts, [c]), c) == parts
  {
    if |parts| == 1 {
      SplitNoSep(parts[0], c);
    } else {
      SplitJoin(parts[1..], c);
      SplitPieceThenSep(parts[0], c, Join(parts[1..], [c]));
      assert [parts[0]] + parts[1..] == parts;
    }
  }

  /** Python's `s[:n]`. */
  function Prefix(s: string, n: nat): (r: string)
    ensures |r| <= n && |r| <= |s|
    ensures |r| == if |s| < n then |s| else n
    ensures r == s[..|r|]
  {
    if |s| <= n then s else s[..n]
  }

  /** Python's `s.rstrip(chars)`: drop every trailing character that is in `cs`. */
  function RStrip(s: string, cs: set<char>): (r: string)
    ensures |r| <= |s| && r == s[..|r|]
    ensures |r| > 0 ==> r[|r| - 1] !in cs
    ensures forall i :: |r| <= i < |s| ==> s[i] in cs
  {
    if |s| > 0 && s[|s| - 1] in cs then RStrip(s[..|s| - 1], cs) else s
  }

  /** Python's `s.lstrip(chars)`: drop every leading character that is in `cs`. */
  function LStrip(s: string, cs: set<char>): (r: string)
    ensures |r| <= |s| && r == s[|s| - |r|..]
    ensures |r| > 0 ==> r[0] !in cs
    ensures forall i :: 0 <= i < |s| - |r| ==> s[i] in cs
  {
    if |s| > 0 && s[0] in cs then
      var r := LStrip(s[1..], cs);
      assert s[1..][|s| - 1 - |r|..] == s[|s| - |r|..];
      assert forall i :: 1 <= i < |s| - |r| ==> s[i] == s[1..][i - 1];
      r
    else s
  }

  /** Python's `s.strip(chars)`. */
  function Strip(s: string, cs: set<char>): (r: string)
    ensures |r| <= |s|
    ensures |r| > 0 ==> r[0] !in cs && r[|r| - 1] !in cs
  {
    LStrip(RStrip(s, cs), cs)
  }

  /** Stripping a string that already has no stripped character at either end leaves it unchanged. */
  lemma StripNoOp(s: string, cs: set<char>)
    requires |s| > 0 ==> s[0] !in cs && s[|s| - 1] !in cs
    ensures Strip(s, cs) == s
  {
  }

  /** One stripped character in front of an already stripped string is all that `strip` removes. */
  lemma StripLeading(s: string, cs: set<char>, ch: char)
    requires ch in cs
    requires |s| > 0 ==> s[0] !in cs && s[|s| - 1] !in cs
    ensures Strip([ch] + s, cs) == s
  {
    var t := [ch] + s;
    assert t[1..] == s;
    if |s| == 0 {
      assert t[..0] == [];
      assert RStrip(t, cs) == RStrip([], cs);
    } else {
      assert t[|t| - 1] == s[|s| - 1];
      assert RStrip(t, cs) == t;
      assert LStrip(t, cs) == LStrip(s, cs);
    }
  }

  /** Appending a stripped character never changes what `rstrip` returns. */
  lemma {:induction false} RStripAppend(s: string, cs: set<char>, ch: char)
    requires ch in cs
    ensures RStrip(s + [ch], cs) == RStrip(s, cs)
  {
    assert (s + [ch])[..|s + [ch]| - 1] == s;
  }

  /** White space as Python 2's `str.split()` sees it. */
  predicate IsSpace(ch: char)
  {
    ch == ' ' || ch == '\t' || ch == '\n' || ch == '\r' || ch == '\U{000B}' || ch == '\U{000C}'
  }

  /** The longest prefix of `s` that holds no white space. */
  function WordPrefix(s: string): (r: string)
    ensures |r| <= |s| && r == s[..|r|]
    ensures forall i :: 0 <= i < |r| ==> !IsSpace(r[i])
    ensures |r| < |s| ==> IsSpace(s[|r|])
    ensures |s| > 0 && !IsSpace(s[0]) ==> |r| >= 1
  {
    if |s| == 0 || IsSpace(s[0]) then "" else [s[0]] + WordPrefix(s[1..])
  }

  /** Python's `s.split()`: the maximal runs of non-white-space characters, in order. */
  function Words(s: string): (r: seq<string>)
    ensures forall i :: 0 <= i < |r| ==> |r[i]| > 0
    decreases |s|
  {
    if |s| == 0 then []
    else if IsSpace(s[0]) then Words(s[1..])
    else
      var w := WordPrefix(s);
      [w] + Words(s[|w|..])
  }

  /** A word followed by nothing or by white space comes out of `split()` first. */
  lemma {:induction false} WordsOfWordThenRest(w: string, rest: string)
    requires |w| > 0 && forall i :: 0 <= i < |w| ==> !IsSpace(w[i])
    requires |rest| > 0 ==> IsSpace(rest[0])
    ensures Words(w + rest) == [w] + Words(rest)
  {
    WordPrefixOf(w, rest);
    assert (w + rest)[|w|..] == rest;
  }

  lemma {:induction false} WordPrefixOf(w: string, rest: string)
    requires forall i :: 0 <= i < |w| ==> !IsSpace(w[i])
    requires |rest| > 0 ==> IsSpace(rest[0])
    ensures WordPrefix(w + rest) == w
  {
    if |w| > 0 {
      WordPrefixOf(w[1..], rest);
      assert (w + rest)[1..] == w[1..] + rest;
      assert [w[0]] + w[1..] == w;
    }
  }

  predicate IsDigit(ch: char)
  {
    '0' <= ch <= '9'
  }

  function DigitChar(d: nat): (ch: char)
    requires d < 10
    ensures IsDigit(ch)
  {
    ('0' as int + d) as char
  }

  function DigitValue(ch: char): (d: nat)
    requires IsDigit(ch)
    ensures d < 10 && DigitChar(d) == ch
  {
    ch as int - '0' as int
  }

  /** Python's `str(n)` for a natural number: decimal, no leading zeros. */
  function NatToString(n: nat): (r: string)
    ensures |r| >= 1 && forall i :: 0 <= i < |r| ==> IsDigit(r[i])
  {
    if n < 10 then [DigitChar(n)] else NatToString(n / 10) + [DigitChar(n % 10)]
  }

  /** The value of a non-empty run of decimal digits; None when `s` is empty or holds a non-digit. */
  function ParseDigits(s: string): (r: Option<nat>)
    ensures r.Some? <==> |s| > 0 && forall i :: 0 <= i < |s| ==> IsDigit(s[i])
  {
    if |s| == 0 || !IsDigit(s[|s| - 1]) then None
    else if |s| == 1 then Some(DigitValue(s[0]))
    else match ParseDigits(s[..|s| - 1])
      case None => None
      case Some(v) => Some(v * 10 + DigitValue(s[|s| - 1]))
  }

  /** Reading back the decimal form of a number gives the number. */
  lemma {:induction false} ParseNatToString(n: nat)
    ensures ParseDigits(NatToString(n)) == Some(n)
  {
    if n >= 10 {
      var s := NatToString(n);
      ParseNatToString(n / 10);
      assert s[..|s| - 1] == NatToString(n / 10);
    }
  }

  const Whitespace: set<char> := {' ', '\t', '\n', '\r', '\U{000B}', '\U{000C}'}

  /** Python 2's `int(s)`: optional surrounding white space, an optional sign, then decimal digits. */
  function ParseInt(s: string): (r: Option<int>)
  {
    var t := Strip(s, Whitespace);
    if |t| > 0 && (t[0] == '-' || t[0] == '+') then
      match ParseDigits(t[1..])
      case None => None
      case Some(v) =>
        var m: int := v;
        Some(if t[0] == '-' then -m else m)
    else
      match ParseDigits(t)
      case None => None
      case Some(v) => Some(v)
  }

  /** `int(str(n)) == n` for every natural number. */
  lemma ParseIntOfNat(n: nat)
    ensures ParseInt(NatToString(n)) == Some(n)
  {
    var s := NatToString(n);
    assert IsDigit(s[0]) && IsDigit(s[|s| - 1]);
    StripNoOp(s, Whitespace);
    assert Strip(s, Whitespace) == s;
    assert s[0] != '-' && s[0] != '+';
    ParseNatToString(n);
  }
}
