/**
 * The Python string built-ins the scrapers rely on (`str.strip`, `str.split`,
 * `str.join`, `str.isdigit`, `str.lower`, `str.upper`, `in`, `int`, `str`),
 * stated over `seq<char>`. Character classes are the ASCII ones: Python's
 * Unicode whitespace, digits and case mappings beyond ASCII are not modelled.
 */
module Text {

  datatype Option<+T> = None | Some(value: T)

  /** The ASCII characters for which Python's `str.isspace()` holds. */
  const Whitespace: set<char> :=
    {' ', '\t', '\n', '\r', '\U{000B}', '\U{000C}', '\U{001C}', '\U{001D}', '\U{001E}', '\U{001F}'}

  // ---------------------------------------------------------------------------
  // strip

  /** `s.lstrip(chars)` with `chars` given as a set. */
  function StripLeft(s: string, cs: set<char>): (r: string)
    ensures |r| <= |s| && r == s[|s| - |r|..]
    ensures r == [] || r[0] !in cs
    ensures forall i :: 0 <= i < |s| - |r| ==> s[i] in cs
    decreases |s|
  {
    if |s| > 0 && s[0] in cs then StripLeft(s[1..], cs) else s
  }

  /** `s.rstrip(chars)` with `chars` given as a set. */
  function StripRight(s: string, cs: set<char>): (r: string)
    ensures |r| <= |s| && r == s[..|r|]
    ensures r == [] || r[|r| - 1] !in cs
    ensures forall i :: |r| <= i < |s| ==> s[i] in cs
    decreases |s|
  {
    if |s| > 0 && s[|s| - 1] in cs then StripRight(s[..|s| - 1], cs) else s
  }

  /** `s.strip(chars)`: neither end of the result is in `cs`, and nothing but
      characters of `cs` was removed, from the two ends only. */
  function StripChars(s: string, cs: set<char>): (r: string)
    ensures r == [] || (r[0] !in cs && r[|r| - 1] !in cs)
  {
    var l := StripLeft(s, cs);
    var r := StripRight(l, cs);
    assert r == [] || r[0] == l[0];
    r
  }

  /** Every character of the stripped text comes from the text. */
  lemma StripCharsFrom(s: string, cs: set<char>)
    ensures forall c :: c in StripChars(s, cs) ==> c in s
  {
    var l := StripLeft(s, cs);
    var r := StripRight(l, cs);
    forall c | c in r ensures c in s {
      var i :| 0 <= i < |r| && r[i] == c;
      assert l[i] == c;
      assert s[|s| - |l| + i] == c;
    }
  }

  /** Stripping leaves nothing exactly when every character is stripped. */
  lemma StripCharsEmpty(s: string, cs: set<char>)
    ensures (forall c :: c in s ==> c in cs) <==> StripChars(s, cs) == []
  {
    var l := StripLeft(s, cs);
    var r := StripChars(s, cs);
    if r == [] {
      assert l == [];
      forall c | c in s ensures c in cs {
        var i :| 0 <= i < |s| && s[i] == c;
      }
    } else {
      assert r[0] in s && r[0] !in cs;
    }
  }

  /** A text whose ends are not stripped characters is left as it is. */
  lemma StripCharsKeeps(s: string, cs: set<char>)
    requires s == [] || (s[0] !in cs && s[|s| - 1] !in cs)
    ensures StripChars(s, cs) == s
  {
    assert StripLeft(s, cs) == s;
  }

  /** Stripping removes exactly a prefix of stripped characters. */
  lemma {:induction false} StripLeftOf(p: string, m: string, cs: set<char>)
    requires forall i :: 0 <= i < |p| ==> p[i] in cs
    requires m == [] || m[0] !in cs
    ensures StripLeft(p + m, cs) == m
    decreases |p|
  {
    if |p| > 0 {
      assert (p + m)[1..] == p[1..] + m;
      StripLeftOf(p[1..], m, cs);
    } else {
      assert p + m == m;
    }
  }

  /** Stripping removes exactly a suffix of stripped characters. */
  lemma {:induction false} StripRightOf(m: string, q: string, cs: set<char>)
    requires forall i :: 0 <= i < |q| ==> q[i] in cs
    requires m == [] || m[|m| - 1] !in cs
    ensures StripRight(m + q, cs) == m
    decreases |q|
  {
    if |q| > 0 {
      assert (m + q)[..|m + q| - 1] == m + q[..|q| - 1];
      StripRightOf(m, q[..|q| - 1], cs);
    } else {
      assert m + q == m;
    }
  }

  /** `(p + m + q).strip(cs) == m` when `p` and `q` are made of `cs` and the ends of `m` are not. */
  lemma StripCharsOf(p: string, m: string, q: string, cs: set<char>)
    requires forall i :: 0 <= i < |p| ==> p[i] in cs
    requires forall i :: 0 <= i < |q| ==> q[i] in cs
    requires |m| > 0 && m[0] !in cs && m[|m| - 1] !in cs
    ensures StripChars(p + m + q, cs) == m
  {
    assert p + m + q == p + (m + q);
    StripLeftOf(p, m + q, cs);
    StripRightOf(m, q, cs);
  }

  /** Stripping the front stops at the first character outside `cs`. */
  lemma {:induction false} StripLeftAppend(p: string, m: string, cs: set<char>)
    requires |m| > 0 && m[0] !in cs
    ensures StripLeft(p + m, cs) == StripLeft(p, cs) + m
    decreases |p|
  {
    if |p| == 0 {
      assert p + m == m;
    } else if p[0] in cs {
      assert (p + m)[1..] == p[1..] + m;
      StripLeftAppend(p[1..], m, cs);
    }
  }

  /** Stripping the back stops at the last character outside `cs`. */
  lemma {:induction false} StripRightAppend(m: string, q: string, cs: set<char>)
    requires |m| > 0 && m[|m| - 1] !in cs
    ensures StripRight(m + q, cs) == m + StripRight(q, cs)
    decreases |q|
  {
    if |q| == 0 {
      assert m + q == m;
    } else if q[|q| - 1] in cs {
      assert (m + q)[..|m + q| - 1] == m + q[..|q| - 1];
      StripRightAppend(m, q[..|q| - 1], cs);
    }
  }

  /** A middle part whose ends are outside `cs` is kept whole: only the
      outer runs of `p` and `q` go. */
  lemma StripCharsAround(p: string, m: string, q: string, cs: set<char>)
    requires |m| > 0 && m[0] !in cs && m[|m| - 1] !in cs
    ensures StripChars(p + m + q, cs) == StripLeft(p, cs) + m + StripRight(q, cs)
  {
    assert p + m + q == p + (m + q);
    StripLeftAppend(p, m + q, cs);
    assert StripLeft(p, cs) + (m + q) == (StripLeft(p, cs) + m) + q;
    StripRightAppend(StripLeft(p, cs) + m, q, cs);
  }

  /** A character outside `cs` survives stripping. */
  lemma StripCharsKeepsOthers(s: string, cs: set<char>, x: char)
    requires x in s && x !in cs
    ensures x in StripChars(s, cs)
  {
    var i :| 0 <= i < |s| && s[i] == x;
    var l := StripLeft(s, cs);
    var k := i - (|s| - |l|);
    assert l[k] == x;
    assert StripRight(l, cs)[k] == x;
  }

  /** `s.strip()`. */
  function Strip(s: string): (r: string)
    ensures r == [] || (r[0] !in Whitespace && r[|r| - 1] !in Whitespace)
    ensures forall c :: c in r ==> c in s
  {
    StripCharsFrom(s, Whitespace);
    StripChars(s, Whitespace)
  }

  // ---------------------------------------------------------------------------
  // split and join

  /** `sep.join(parts)`. */
  function Join(parts: seq<string>, sep: string): string
  {
    if |parts| == 0 then ""
    else if |parts| == 1 then parts[0]
    else parts[0] + sep + Join(parts[1..], sep)
  }

  /** `s.split(sep)` for a one-character separator: at least one piece, no
      piece holds the separator, and joining the pieces gives `s` back. */
  function Split(s: string, sep: char): (r: seq<string>)
    ensures |r| >= 1
    ensures forall p :: p in r ==> sep !in p
    ensures Join(r, [sep]) == s
    decreases |s|
  {
    if |s| == 0 then [""]
    else
      var rest := Split(s[1..], sep);
      if s[0] == sep then
        assert s == [sep] + s[1..];
        [""] + rest
      else
        var r := [[s[0]] + rest[0]] + rest[1..];
        assert |rest| > 1 ==> Join(rest, [sep]) == rest[0] + [sep] + Join(rest[1..], [sep]);
        assert r[1..] == rest[1..];
        assert s == [s[0]] + s[1..];
        r
  }

  /** A piece without the separator, then the separator, is split off first. */
  lemma {:induction false} SplitOfPieceThen(p: string, sep: char, t: string)
    requires sep !in p
    ensures Split(p + [sep] + t, sep) == [p] + Split(t, sep)
    decreases |p|
  {
    var s := p + [sep] + t;
    if |p| == 0 {
      assert s == [sep] + t;
      assert s[1..] == t;
    } else {
      assert s[1..] == p[1..] + [sep] + t;
      SplitOfPieceThen(p[1..], sep, t);
      assert [s[0]] + p[1..] == p;
    }
  }

  /** A string without the separator splits into itself alone. */
  lemma {:induction false} SplitOfPiece(p: string, sep: char)
    requires sep !in p
    ensures Split(p, sep) == [p]
    decreases |p|
  {
    if |p| > 0 {
      SplitOfPiece(p[1..], sep);
      assert [p[0]] + p[1..] == p;
    }
  }

  /** `Split` undoes `Join`: pieces without the separator come back unchanged. */
  lemma {:induction false} SplitOfJoin(parts: seq<string>, sep: char)
    requires |parts| >= 1
    requires forall p :: p in parts ==> sep !in p
    ensures Split(Join(parts, [sep]), sep) == parts
    decreases |parts|
  {
    if |parts| == 1 {
      SplitOfPiece(parts[0], sep);
    } else {
      SplitOfPieceThen(parts[0], sep, Join(parts[1..], [sep]));
      SplitOfJoin(parts[1..], sep);
      assert parts == [parts[0]] + parts[1..];
    }
  }

  /** An ASCII decimal digit. */
  predicate IsDigit(c: char) { '0' <= c <= '9' }

  /** `s.isdigit()` over ASCII: non-empty and made only of digits. */
  predicate IsDigits(s: string) { |s| > 0 && forall i :: 0 <= i < |s| ==> IsDigit(s[i]) }

  /** A whitespace-free, non-empty token, as `str.split()` produces. */
  predicate IsWord(w: string) { |w| > 0 && forall i :: 0 <= i < |w| ==> w[i] !in Whitespace }

  /** `s.split()`: the maximal runs of non-whitespace characters, in order. */
  function Words(s: string): (r: seq<string>)
    ensures forall w :: w in r ==> IsWord(w)
    ensures |s| > 0 && s[0] !in Whitespace ==> |r| > 0 && |r[0]| > 0 && r[0][0] == s[0]
    decreases |s|
  {
    if |s| == 0 then []
    else if s[0] in Whitespace then Words(s[1..])
    else
      var rest := Words(s[1..]);
      if |s| > 1 && s[1] !in Whitespace then
        var w := [s[0]] + rest[0];
        assert IsWord(rest[0]);
        assert IsWord(w) by {
          forall i | 0 <= i < |w| ensures w[i] !in Whitespace {
            if i > 0 { assert w[i] == rest[0][i - 1]; }
          }
        }
        assert forall x :: x in rest[1..] ==> x in rest;
        [w] + rest[1..]
      else
        [[s[0]]] + rest
  }

  /** A word followed by nothing or by whitespace is split off as the first word. */
  lemma {:induction false} WordsOfWordThen(w: string, t: string)
    requires IsWord(w)
    requires t == [] || t[0] in Whitespace
    ensures Words(w + t) == [w] + Words(t)
    decreases |w|
  {
    var s := w + t;
    assert s[0] == w[0];
    if |w| == 1 {
      assert s[1..] == t;
      assert w == [s[0]];
      assert |s| > 1 ==> s[1] == t[0];
    } else {
      assert s[1..] == w[1..] + t;
      WordsOfWordThen(w[1..], t);
      assert s[1] == w[1];
      assert [s[0]] + w[1..] == w;
    }
  }

  /** Splitting words joined by single spaces gives the words back. */
  lemma {:induction false} WordsOfJoin(ws: seq<string>)
    requires forall w :: w in ws ==> IsWord(w)
    ensures Words(Join(ws, " ")) == ws
    decreases |ws|
  {
    if |ws| == 0 {
    } else if |ws| == 1 {
      WordsOfWordThen(ws[0], "");
      assert ws[0] + "" == ws[0];
    } else {
      var t := Join(ws[1..], " ");
      assert Join(ws, " ") == ws[0] + (" " + t);
      WordsOfWordThen(ws[0], " " + t);
      assert (" " + t)[1..] == t;
      WordsOfJoin(ws[1..]);
      assert Words(" " + t) == Words(t);
      assert ws == [ws[0]] + ws[1..];
    }
  }

  /** The value of a digit string, as Python's `int(s)`. */
  function DigitsValue(s: string): nat
    requires forall i :: 0 <= i < |s| ==> IsDigit(s[i])
    decreases |s|
  {
    if |s| == 0 then 0
    else
      assert IsDigit(s[|s| - 1]);
      DigitsValue(s[..|s| - 1]) * 10 + (s[|s| - 1] as int - '0' as int)
  }

  /** The decimal text of a natural number, as Python's `str(n)`. */
  function NatToString(n: nat): (r: string)
    ensures IsDigits(r)
    decreases n
  {
    if n < 10 then [('0' as int + n) as char]
    else NatToString(n / 10) + [('0' as int + n % 10) as char]
  }

  /** `str(int(s))` of `str(n)` is `n`. */
  lemma {:induction false} DigitsValueOfNatToString(n: nat)
    ensures DigitsValue(NatToString(n)) == n
    decreases n
  {
    if n >= 10 {
      var r := NatToString(n);
      assert r[..|r| - 1] == NatToString(n / 10);
      DigitsValueOfNatToString(n / 10);
    }
  }

  /** The decimal text of an integer, with a leading '-' when negative. */
  function IntToString(n: int): (r: string)
    ensures n >= 0 ==> r == NatToString(n)
    ensures n < 0 ==> r == "-" + NatToString(-n)
  {
    if n >= 0 then NatToString(n) else "-" + NatToString(-n)
  }

  /** The text starts with '-' exactly for a negative number. */
  lemma IntToStringSign(n: int)
    ensures |IntToString(n)| > 0 && (IntToString(n)[0] == '-' <==> n < 0)
  {
    if n >= 0 {
      assert IsDigit(NatToString(n)[0]);
    }
  }

  /** Different numbers have different texts. */
  lemma IntToStringInjective(a: int, b: int)
    requires IntToString(a) == IntToString(b)
    ensures a == b
  {
    IntToStringSign(a);
    IntToStringSign(b);
    if a >= 0 {
      DigitsValueOfNatToString(a);
      DigitsValueOfNatToString(b);
    } else {
      assert NatToString(-a) == IntToString(a)[1..] == IntToString(b)[1..] == NatToString(-b);
      DigitsValueOfNatToString(-a);
      DigitsValueOfNatToString(-b);
    }
  }

  // ---------------------------------------------------------------------------
  // searching and case

  /** Python's `sub in s`. */
  predicate Contains(s: string, sub: string)
    decreases |s|
  {
    if sub <= s then true
    else if |s| <= |sub| then false
    else Contains(s[1..], sub)
  }

  /** `Contains` means that `sub` occurs at some position of `s`. */
  lemma {:induction false} ContainsAt(s: string, sub: string, k: nat)
    requires k + |sub| <= |s| && s[k..k + |sub|] == sub
    ensures Contains(s, sub)
    decreases k
  {
    if k == 0 {
      assert sub <= s;
    } else if sub <= s {
    } else {
      assert s[1..][k - 1..k - 1 + |sub|] == s[k..k + |sub|];
      ContainsAt(s[1..], sub, k - 1);
    }
  }

  /** A string made of digits holds no '-'. */
  lemma {:induction false} DigitsHaveNoDash(s: string)
    requires IsDigits(s)
    ensures !Contains(s, "-")
    decreases |s|
  {
    if |s| > 1 {
      assert s[1..][0] == s[1];
      DigitsHaveNoDash(s[1..]);
    }
    assert !("-" <= s) by { assert IsDigit(s[0]); }
  }

  /** True when some string of `subs` occurs in `s` (Python's `any(x in s for x in subs)`). */
  predicate ContainsAny(s: string, subs: seq<string>)
  {
    exists k :: 0 <= k < |subs| && Contains(s, subs[k])
  }

  function LowerChar(c: char): char
  {
    if 'A' <= c <= 'Z' then (c as int + 32) as char else c
  }

  function UpperChar(c: char): char
  {
    if 'a' <= c <= 'z' then (c as int - 32) as char else c
  }

  /** `s.lower()` over ASCII letters. */
  function Lower(s: string): (r: string)
    ensures |r| == |s| && forall i :: 0 <= i < |s| ==> r[i] == LowerChar(s[i])
  {
    seq(|s|, i requires 0 <= i < |s| => LowerChar(s[i]))
  }

  /** `s.upper()` over ASCII letters. */
  function Upper(s: string): (r: string)
    ensures |r| == |s| && forall i :: 0 <= i < |s| ==> r[i] == UpperChar(s[i])
  {
    seq(|s|, i requires 0 <= i < |s| => UpperChar(s[i]))
  }

  /** `s.replace(c, '')`: every other character, in order. */
  function RemoveChar(s: string, c: char): (r: string)
    ensures c !in r
    ensures forall x :: x in r ==> x in s
    ensures forall x :: x in s && x != c ==> x in r
    decreases |s|
  {
    if |s| == 0 then ""
    else if s[0] == c then RemoveChar(s[1..], c)
    else [s[0]] + RemoveChar(s[1..], c)
  }

  /** Every character other than `c` is kept as often as it occurs. */
  lemma {:induction false} RemoveCharCounts(s: string, c: char)
    ensures multiset(RemoveChar(s, c)) == multiset(s)[c := 0]
    decreases |s|
  {
    if |s| > 0 {
      assert s == [s[0]] + s[1..];
      RemoveCharCounts(s[1..], c);
    }
  }

  /** Removal works piece by piece: the kept characters of `a` come first,
      then those of `b`. */
  lemma {:induction false} RemoveCharAppend(a: string, b: string, c: char)
    ensures RemoveChar(a + b, c) == RemoveChar(a, c) + RemoveChar(b, c)
    decreases |a|
  {
    if |a| == 0 {
      assert a + b == b;
    } else {
      assert (a + b)[1..] == a[1..] + b;
      RemoveCharAppend(a[1..], b, c);
    }
  }

  /** One character is dropped when it is `c` and kept otherwise; with
      `RemoveCharAppend` this fixes the result of every text. */
  lemma RemoveCharOne(x: char, c: char)
    ensures RemoveChar([x], c) == if x == c then "" else [x]
  {
  }

  /** The first and last characters are kept when neither is `c`. */
  lemma RemoveCharEnds(m: string, c: char)
    requires |m| > 0 && m[0] != c && m[|m| - 1] != c
    ensures var r := RemoveChar(m, c); |r| > 0 && r[0] == m[0] && r[|r| - 1] == m[|m| - 1]
  {
    var init := m[..|m| - 1];
    assert init + [m[|m| - 1]] == m;
    RemoveCharAppend(init, [m[|m| - 1]], c);
    RemoveCharOne(m[|m| - 1], c);
  }

  /** A text made of `c` and characters of `cs` keeps only characters of `cs`. */
  lemma {:induction false} RemoveCharWithin(s: string, c: char, cs: set<char>)
    requires forall i :: 0 <= i < |s| ==> s[i] == c || s[i] in cs
    ensures forall i :: 0 <= i < |RemoveChar(s, c)| ==> RemoveChar(s, c)[i] in cs
    decreases |s|
  {
    if |s| > 0 {
      RemoveCharWithin(s[1..], c, cs);
    }
  }

  /** Strip, remove `c`, strip again: what is left of a text whose outer
      runs hold only `c` and characters of `cs` is its middle part without
      `c`, in order. */
  lemma StripRemoveStrip(p: string, m: string, q: string, c: char, cs: set<char>)
    requires forall i :: 0 <= i < |p| ==> p[i] == c || p[i] in cs
    requires forall i :: 0 <= i < |q| ==> q[i] == c || q[i] in cs
    requires |m| > 0 && m[0] != c && m[0] !in cs && m[|m| - 1] != c && m[|m| - 1] !in cs
    ensures StripChars(RemoveChar(StripChars(p + m + q, cs), c), cs) == RemoveChar(m, c)
  {
    var pl := StripLeft(p, cs);
    var qr := StripRight(q, cs);
    StripCharsAround(p, m, q, cs);
    RemoveCharAppend(pl + m, qr, c);
    RemoveCharAppend(pl, m, c);
    assert forall i :: 0 <= i < |pl| ==> pl[i] == p[|p| - |pl| + i];
    RemoveCharWithin(pl, c, cs);
    assert forall i :: 0 <= i < |qr| ==> qr[i] == q[i];
    RemoveCharWithin(qr, c, cs);
    RemoveCharEnds(m, c);
    StripCharsOf(RemoveChar(pl, c), RemoveChar(m, c), RemoveChar(qr, c), cs);
  }

  /** A text without `c` is unchanged. */
  lemma {:induction false} RemoveCharAbsent(s: string, c: char)
    requires c !in s
    ensures RemoveChar(s, c) == s
    decreases |s|
  {
    if |s| > 0 {
      RemoveCharAbsent(s[1..], c);
      assert [s[0]] + s[1..] == s;
    }
  }

  /** `c * n`. */
  function Repeat(c: char, n: nat): (r: string)
    ensures |r| == n && forall i :: 0 <= i < n ==> r[i] == c
  {
    seq(n, _ => c)
  }

  /** `f"{s:<n}"`: `s` padded with spaces on the right to width `n`. */
  function PadRight(s: string, n: nat): (r: string)
    ensures |r| == if |s| < n then n else |s|
    ensures r[..|s|] == s
    ensures forall i :: |s| <= i < |r| ==> r[i] == ' '
  {
    if |s| < n then s + Repeat(' ', n - |s|) else s
  }

  /** The position of the first occurrence of `x` in `s`, as `s.index(x)`. */
  function IndexOf<T(==)>(s: seq<T>, x: T): (k: nat)
    requires x in s
    ensures k < |s| && s[k] == x && x !in s[..k]
  {
    if s[0] == x then 0
    else
      var k := IndexOf(s[1..], x);
      assert s[..k + 1] == [s[0]] + s[1..][..k];
      k + 1
  }

  /** No element occurs twice (the keys of a dictionary, read in order). */
  predicate Distinct<T(==)>(s: seq<T>)
  {
    forall i, j :: 0 <= i < j < |s| ==> s[i] != s[j]
  }

  // ---------------------------------------------------------------------------
  // concatenation of mapped pieces

  /** `f` applied to each element, the results concatenated in order. */
  function ConcatMap<T, U>(f: T -> seq<U>, xs: seq<T>): seq<U>
    decreases |xs|
  {
    if xs == [] then [] else f(xs[0]) + ConcatMap(f, xs[1..])
  }

  lemma {:induction false} ConcatMapAppend<T, U>(f: T -> seq<U>, a: seq<T>, b: seq<T>)
    ensures ConcatMap(f, a + b) == ConcatMap(f, a) + ConcatMap(f, b)
    decreases |a|
  {
    if a == [] {
      assert a + b == b;
    } else {
      assert (a + b)[0] == a[0] && (a + b)[1..] == a[1..] + b;
      ConcatMapAppend(f, a[1..], b);
    }
  }

  lemma ConcatMapSnoc<T, U>(f: T -> seq<U>, xs: seq<T>)
    requires xs != []
    ensures ConcatMap(f, xs) == ConcatMap(f, xs[..|xs| - 1]) + f(xs[|xs| - 1])
  {
    assert xs == xs[..|xs| - 1] + [xs[|xs| - 1]];
    ConcatMapAppend(f, xs[..|xs| - 1], [xs[|xs| - 1]]);
    ConcatMapOne(f, xs[|xs| - 1]);
  }

  lemma ConcatMapOne<T, U>(f: T -> seq<U>, x: T)
    ensures ConcatMap(f, [x]) == f(x)
  {
    assert [x][0] == x && [x][1..] == [];
    assert f(x) + [] == f(x);
  }

  lemma ConcatMapThree<T, U>(f: T -> seq<U>, a: T, b: T, c: T)
    ensures ConcatMap(f, [a, b, c]) == f(a) + f(b) + f(c)
  {
    assert [a, b, c] == [a] + ([b] + [c]);
    ConcatMapAppend(f, [a], [b] + [c]);
    ConcatMapAppend(f, [b], [c]);
    ConcatMapOne(f, a);
    ConcatMapOne(f, b);
    ConcatMapOne(f, c);
  }

  lemma ConcatMapFour<T, U>(f: T -> seq<U>, a: T, b: T, c: T, d: T)
    ensures ConcatMap(f, [a, b, c, d]) == f(a) + f(b) + f(c) + f(d)
  {
    assert [a, b, c, d] == [a, b, c] + [d];
    ConcatMapAppend(f, [a, b, c], [d]);
    ConcatMapThree(f, a, b, c);
    ConcatMapOne(f, d);
  }
}
