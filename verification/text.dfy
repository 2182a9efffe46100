/** Character-sequence helpers with the semantics of the Python string
    operations the source relies on: `str.split(sep)`, `str.split(sep, n)`,
    `str.rsplit(sep, 1)`, `sep.join(parts)`, `str(int)`, substring search and
    the broker's `*` glob. */
module Text {
  import opened Wrappers

  /** Index of the first occurrence of `c` in `s`. */
  function Find(s: string, c: char): (i: nat)
    requires c in s
    ensures i < |s| && s[i] == c
    ensures c !in s[..i]
  {
    if s[0] == c then 0
    else
      var j := Find(s[1..], c);
      assert s[..j + 1] == [s[0]] + s[1..][..j];
      1 + j
  }

  /** `sep.join(parts)` for a one-character separator. */
  function Join(parts: seq<string>, sep: char): string
  {
    if |parts| == 0 then ""
    else if |parts| == 1 then parts[0]
    else parts[0] + [sep] + Join(parts[1..], sep)
  }

  /** `s.split(sep)`: never empty, and no piece holds the separator. */
  function Split(s: string, sep: char): (parts: seq<string>)
    ensures |parts| >= 1
    ensures forall i :: 0 <= i < |parts| ==> sep !in parts[i]
    decreases |s|
  {
    if sep !in s then [s]
    else
      var i := Find(s, sep);
      [s[..i]] + Split(s[i + 1..], sep)
  }

  /** Joining the pieces of `s.split(sep)` back gives `s`. */
  lemma {:induction false} SplitJoinsBack(s: string, sep: char)
    ensures Join(Split(s, sep), sep) == s
    decreases |s|
  {
    if sep in s {
      var i := Find(s, sep);
      var rest := Split(s[i + 1..], sep);
      SplitJoinsBack(s[i + 1..], sep);
      assert ([s[..i]] + rest)[1..] == rest;
      assert s == s[..i] + [sep] + s[i + 1..];
    }
  }

  /** `s.split(sep, n)`: at most `n` cuts, the last piece keeps any further
      separators. */
  function SplitMax(s: string, sep: char, n: nat): (parts: seq<string>)
    ensures 1 <= |parts| <= n + 1
    ensures forall i :: 0 <= i < |parts| - 1 ==> sep !in parts[i]
    ensures Join(parts, sep) == s
    decreases n
  {
    if n == 0 || sep !in s then [s]
    else
      var i := Find(s, sep);
      var rest := SplitMax(s[i + 1..], sep, n - 1);
      assert s == s[..i] + [sep] + s[i + 1..];
      assert ([s[..i]] + rest)[1..] == rest;
      [s[..i]] + rest
  }

  /** The first separator of `a + [sep] + b` is the one after `a`. */
  lemma FindAfter(a: string, sep: char, b: string)
    requires sep !in a
    ensures Find(a + [sep] + b, sep) == |a|
  {
    var s := a + [sep] + b;
    var i := Find(s, sep);
    assert s[..|a|] == a;
    assert forall k :: |a| < k <= |s| ==> s[..k][|a|] == sep;
  }

  lemma SplitCons(a: string, sep: char, b: string)
    requires sep !in a
    ensures Split(a + [sep] + b, sep) == [a] + Split(b, sep)
  {
    var s := a + [sep] + b;
    FindAfter(a, sep, b);
    assert s[..|a|] == a;
    assert s[|a| + 1..] == b;
  }

  lemma SplitMaxCons(a: string, sep: char, b: string, n: nat)
    requires sep !in a && n > 0
    ensures SplitMax(a + [sep] + b, sep, n) == [a] + SplitMax(b, sep, n - 1)
  {
    var s := a + [sep] + b;
    FindAfter(a, sep, b);
    assert s[..|a|] == a;
    assert s[|a| + 1..] == b;
  }

  /** Splitting is a left inverse of joining when no piece holds the
      separator. */
  lemma {:induction false} SplitJoin(parts: seq<string>, sep: char)
    requires |parts| >= 1
    requires forall i :: 0 <= i < |parts| ==> sep !in parts[i]
    ensures Split(Join(parts, sep), sep) == parts
    decreases |parts|
  {
    if |parts| == 1 {
    } else {
      SplitJoin(parts[1..], sep);
      SplitCons(parts[0], sep, Join(parts[1..], sep));
      assert parts == [parts[0]] + parts[1..];
    }
  }

  /** Join of a non-empty prefix followed by one more piece. */
  lemma {:induction false} JoinSnoc(parts: seq<string>, sep: char)
    requires |parts| >= 2
    ensures Join(parts, sep) == Join(parts[..|parts| - 1], sep) + [sep] + parts[|parts| - 1]
    decreases |parts|
  {
    if |parts| == 2 {
      assert parts[..1] == [parts[0]];
    } else {
      JoinSnoc(parts[1..], sep);
      assert parts[1..][..|parts| - 2] == parts[..|parts| - 1][1..];
    }
  }

  /** The last piece of `s.split(sep)`: `s.rsplit(sep, 1)[-1]`. */
  function LastPiece(s: string, sep: char): (r: string)
    ensures sep !in r
  {
    var parts := Split(s, sep);
    parts[|parts| - 1]
  }

  /** `s.rsplit(sep, 1)` when it produces two pieces, `None` when `sep` does
      not occur (the source then fails on index 1). */
  function RSplitOnce(s: string, sep: char): (r: Option<(string, string)>)
    ensures r.None? <==> sep !in s
    ensures r.Some? ==> r.value.0 + [sep] + r.value.1 == s && sep !in r.value.1
  {
    var parts := Split(s, sep);
    SplitJoinsBack(s, sep);
    if |parts| == 1 then
      assert Join(parts, sep) == parts[0];
      None
    else
      JoinSnoc(parts, sep);
      Some((Join(parts[..|parts| - 1], sep), parts[|parts| - 1]))
  }

  /** The last separator of `a + [sep] + b` is the one before `b`. */
  lemma {:induction false} SplitSnoc(a: string, sep: char, b: string)
    requires sep !in b
    ensures Split(a + [sep] + b, sep) == Split(a, sep) + [b]
    decreases |a|
  {
    if sep !in a {
      SplitCons(a, sep, b);
    } else {
      var i := Find(a, sep);
      var head, tail := a[..i], a[i + 1..];
      assert a == head + [sep] + tail;
      var t := tail + [sep] + b;
      assert a + [sep] + b == head + [sep] + t;
      SplitCons(head, sep, t);
      SplitSnoc(tail, sep, b);
      SplitCons(head, sep, tail);
      assert [head] + (Split(tail, sep) + [b]) == ([head] + Split(tail, sep)) + [b];
    }
  }

  lemma RSplitOnceOf(a: string, sep: char, b: string)
    requires sep !in b
    ensures RSplitOnce(a + [sep] + b, sep) == Some((a, b))
  {
    var parts := Split(a + [sep] + b, sep);
    SplitSnoc(a, sep, b);
    SplitJoinsBack(a, sep);
    assert parts[..|parts| - 1] == Split(a, sep);
  }

  predicate HasPrefix(s: string, p: string) {
    |p| <= |s| && s[..|p|] == p
  }

  /** `sub in s` for strings. */
  predicate Contains(s: string, sub: string)
    decreases |s|
  {
    HasPrefix(s, sub) || (|s| > 0 && Contains(s[1..], sub))
  }

  /** A string holds only substrings no longer than itself. */
  lemma {:induction false} ContainsIsLonger(s: string, sub: string)
    requires Contains(s, sub)
    ensures |sub| <= |s|
    decreases |s|
  {
    if !HasPrefix(s, sub) {
      ContainsIsLonger(s[1..], sub);
    }
  }

  lemma {:induction false} ContainsInside(a: string, sub: string, b: string)
    ensures Contains(a + sub + b, sub)
    decreases |a|
  {
    if |a| == 0 {
      assert (a + sub + b)[..|sub|] == sub;
    } else {
      ContainsInside(a[1..], sub, b);
      assert (a + sub + b)[1..] == a[1..] + sub + b;
    }
  }

  /** The broker's pattern match restricted to `*` (any run of characters,
      `/` included) and literal characters. */
  predicate Glob(p: string, s: string)
    decreases |p| + |s|
  {
    if |p| == 0 then |s| == 0
    else if p[0] == '*' then Glob(p[1..], s) || (|s| > 0 && Glob(p, s[1..]))
    else |s| > 0 && p[0] == s[0] && Glob(p[1..], s[1..])
  }

  lemma {:induction false} GlobLiteral(lit: string, p: string, s: string)
    requires '*' !in lit
    requires Glob(p, s)
    ensures Glob(lit + p, lit + s)
    decreases |lit|
  {
    if |lit| > 0 {
      GlobLiteral(lit[1..], p, s);
      assert (lit + p)[1..] == lit[1..] + p;
      assert (lit + s)[1..] == lit[1..] + s;
    } else {
      assert lit + p == p && lit + s == s;
    }
  }

  lemma {:induction false} GlobStar(p: string, x: string, s: string)
    requires Glob(p, s)
    ensures Glob("*" + p, x + s)
    decreases |x|
  {
    if |x| == 0 {
      assert ("*" + p)[1..] == p;
      assert x + s == s;
    } else {
      GlobStar(p, x[1..], s);
      assert (x + s)[1..] == x[1..] + s;
    }
  }

  function DigitChar(d: nat): (c: char)
    requires d < 10
    ensures '0' <= c <= '9'
  {
    "0123456789"[d]
  }

  function DigitValue(c: char): (d: nat)
    requires '0' <= c <= '9'
    ensures d < 10
  {
    c as int - '0' as int
  }

  /** `str(n)` for a natural number. */
  function NatToString(n: nat): (s: string)
    ensures |s| >= 1
    ensures forall i :: 0 <= i < |s| ==> '0' <= s[i] <= '9'
  {
    if n < 10 then [DigitChar(n)]
    else NatToString(n / 10) + [DigitChar(n % 10)]
  }

  /** `str(i)` for an integer. */
  function IntToString(i: int): (s: string)
    ensures |s| >= 1
    ensures '/' !in s && '_' !in s
  {
    if i < 0 then "-" + NatToString(-i) else NatToString(i)
  }

  predicate IsDigits(s: string) {
    forall i :: 0 <= i < |s| ==> '0' <= s[i] <= '9'
  }

  /** The value of a run of decimal digits, most significant first. */
  function DigitsValue(s: string): (n: nat)
    requires IsDigits(s)
  {
    if |s| == 0 then 0 else 10 * DigitsValue(s[..|s| - 1]) + DigitValue(s[|s| - 1])
  }

  /** `int(s)` for the plain decimal forms `-?[0-9]+`; `None` is the
      `ValueError` Python raises for text that is not a number. */
  function ParseInt(s: string): (r: Option<int>)
    ensures r.Some? <==> (|s| > 0 && IsDigits(s)) || (|s| > 1 && s[0] == '-' && IsDigits(s[1..]))
  {
    if |s| > 0 && IsDigits(s) then Some(DigitsValue(s))
    else if |s| > 1 && s[0] == '-' && IsDigits(s[1..]) then Some(-(DigitsValue(s[1..]) as int))
    else None
  }

  lemma DigitRoundTrip(d: nat)
    requires d < 10
    ensures DigitValue(DigitChar(d)) == d
  {
  }

  lemma {:induction false} NatToStringValue(n: nat)
    ensures IsDigits(NatToString(n)) && DigitsValue(NatToString(n)) == n
  {
    var s := NatToString(n);
    if n < 10 {
      DigitRoundTrip(n);
      assert s[..0] == [];
    } else {
      var head := NatToString(n / 10);
      NatToStringValue(n / 10);
      DigitRoundTrip(n % 10);
      assert s == head + [DigitChar(n % 10)];
      assert s[..|s| - 1] == head;
      assert DigitsValue(s) == 10 * (n / 10) + n % 10;
    }
  }

  /** `int(str(i)) == i`. */
  lemma IntToStringRoundTrip(i: int)
    ensures ParseInt(IntToString(i)) == Some(i)
  {
    if i < 0 {
      NegativeTextRoundTrip(i);
    } else {
      NatTextRoundTrip(i);
    }
  }

  lemma NatTextRoundTrip(i: int)
    requires i >= 0
    ensures ParseInt(IntToString(i)) == Some(i)
  {
    var s := NatToString(i);
    assert IntToString(i) == s;
    NatToStringValue(i);
    assert |s| > 0 && IsDigits(s);
  }

  lemma NegativeTextRoundTrip(i: int)
    requires i < 0
    ensures ParseInt(IntToString(i)) == Some(i)
  {
    MinusTextRoundTrip(i);
    NegativeText(i);
  }

  lemma NegativeText(i: int)
    requires i < 0
    ensures IntToString(i) == "-" + NatToString(-i)
  {
  }

  lemma MinusTextRoundTrip(i: int)
    requires i < 0
    ensures ParseInt("-" + NatToString(-i)) == Some(i)
  {
    var t := NatToString(-i);
    var s := "-" + t;
    NatToStringValue(-i);
    assert s[1..] == t;
    assert s[0] == '-';
  }
}
