/**
 * The JavaScript string built-ins the routes rely on (template-literal number
 * formatting, parseInt, String.prototype.replace with a string pattern, split,
 * join, indexOf, lastIndexOf, substring, slice) and the binary string order a
 * descending sort on a string field uses. Strings are sequences of characters.
 */
module Text {

  import opened Common

  predicate IsDigit(c: char)
  {
    '0' <= c <= '9'
  }

  predicate AllDigits(s: string)
  {
    forall i :: 0 <= i < |s| ==> IsDigit(s[i])
  }

  function DigitChar(d: nat): (c: char)
    requires d < 10
    ensures IsDigit(c) && c as int - '0' as int == d
  {
    ('0' as int + d) as char
  }

  function DigitValue(c: char): nat
    requires IsDigit(c)
  {
    c as int - '0' as int
  }

  /** `${n}` for a non-negative integer: decimal digits with no leading zero. */
  function NatToString(n: nat): (s: string)
    ensures |s| >= 1 && AllDigits(s)
    ensures s[0] == '0' ==> n == 0
    ensures n < 10 <==> |s| == 1
  {
    if n < 10 then [DigitChar(n)] else NatToString(n / 10) + [DigitChar(n % 10)]
  }

  /** The number a string of decimal digits denotes. */
  function DigitsValue(s: string): nat
    requires AllDigits(s)
  {
    if s == [] then 0 else DigitsValue(s[..|s| - 1]) * 10 + DigitValue(s[|s| - 1])
  }

  lemma {:induction false} DigitsValueOfNatToString(n: nat)
    ensures DigitsValue(NatToString(n)) == n
  {
    if n >= 10 {
      var s := NatToString(n);
      assert s[..|s| - 1] == NatToString(n / 10);
      DigitsValueOfNatToString(n / 10);
    }
  }

  /** The longest prefix of `s` made of decimal digits. */
  function LeadingDigits(s: string): (d: string)
    ensures d <= s && AllDigits(d)
    ensures |d| < |s| ==> !IsDigit(s[|d|])
  {
    if s != [] && IsDigit(s[0]) then [s[0]] + LeadingDigits(s[1..]) else []
  }

  /**
   * `parseInt(s)` on the strings the allocators see: the value of the leading
   * decimal digits, or None for NaN when there are none.
   */
  function ParseInt(s: string): (r: Option<nat>)
    ensures r.None? <==> (s == [] || !IsDigit(s[0]))
  {
    var d := LeadingDigits(s);
    if d == [] then None else Some(DigitsValue(d))
  }

  /** Parsing the decimal formatting of a number gives the number back. */
  lemma ParseIntOfNatToString(n: nat)
    ensures ParseInt(NatToString(n)) == Some(n)
  {
    var s := NatToString(n);
    var d := LeadingDigits(s);
    assert d == s;
    DigitsValueOfNatToString(n);
  }

  /** `pat` occurs in `s` starting at position `i`. */
  predicate OccursAt(s: string, pat: string, i: int)
  {
    0 <= i && i + |pat| <= |s| && s[i..i + |pat|] == pat
  }

  /** `s.replace(pat, '')` with a string pattern: only the first occurrence goes. */
  function RemoveFirst(s: string, pat: string): (r: string)
    ensures r == s || |r| == |s| - |pat|
    ensures pat == [] ==> r == s
  {
    if |pat| <= |s| && s[..|pat|] == pat then s[|pat|..]
    else if s == [] then []
    else [s[0]] + RemoveFirst(s[1..], pat)
  }

  /** The first occurrence, and only it, is cut out. */
  lemma {:induction false} RemoveFirstCutsFirstOccurrence(s: string, pat: string, i: int)
    requires OccursAt(s, pat, i)
    requires forall j :: 0 <= j < i ==> !OccursAt(s, pat, j)
    ensures RemoveFirst(s, pat) == s[..i] + s[i + |pat|..]
  {
    if i > 0 {
      assert !OccursAt(s, pat, 0);
      var t := s[1..];
      assert t[i - 1..i - 1 + |pat|] == s[i..i + |pat|];
      forall j | 0 <= j < i - 1
        ensures !OccursAt(t, pat, j)
      {
        assert !OccursAt(s, pat, j + 1);
        if j + |pat| <= |t| {
          assert t[j..j + |pat|] == s[j + 1..j + 1 + |pat|];
        }
      }
      RemoveFirstCutsFirstOccurrence(t, pat, i - 1);
      assert [s[0]] + t[..i - 1] == s[..i];
      assert t[i - 1 + |pat|..] == s[i + |pat|..];
    }
  }

  /** Without an occurrence the string is left as it is. */
  lemma {:induction false} RemoveFirstWithoutOccurrence(s: string, pat: string)
    requires forall j :: !OccursAt(s, pat, j)
    ensures RemoveFirst(s, pat) == s
  {
    assert !OccursAt(s, pat, 0);
    if s != [] {
      var t := s[1..];
      forall j
        ensures !OccursAt(t, pat, j)
      {
        assert !OccursAt(s, pat, j + 1);
        if 0 <= j && j + |pat| <= |t| {
          assert t[j..j + |pat|] == s[j + 1..j + 1 + |pat|];
        }
      }
      RemoveFirstWithoutOccurrence(t, pat);
      assert [s[0]] + t == s;
    }
  }

  lemma RemoveFirstOfPrefixed(pat: string, t: string)
    ensures RemoveFirst(pat + t, pat) == t
  {
    assert (pat + t)[..|pat|] == pat;
  }

  // ---------------------------------------------------------------- order

  /** Binary string order: a prefix comes first, else the first differing character decides. */
  function LexLe(a: string, b: string): (le: bool)
    ensures a <= b ==> le
  {
    a == [] || (b != [] && (a[0] < b[0] || (a[0] == b[0] && LexLe(a[1..], b[1..]))))
  }

  lemma {:induction false} LexLeReflexive(a: string)
    ensures LexLe(a, a)
  {
    if a != [] {
      LexLeReflexive(a[1..]);
    }
  }

  lemma {:induction false} LexLeTotal(a: string, b: string)
    ensures LexLe(a, b) || LexLe(b, a)
  {
    if a != [] && b != [] && a[0] == b[0] {
      LexLeTotal(a[1..], b[1..]);
    }
  }

  lemma {:induction false} LexLeAntisymmetric(a: string, b: string)
    requires LexLe(a, b) && LexLe(b, a)
    ensures a == b
  {
    if a != [] && b != [] {
      LexLeAntisymmetric(a[1..], b[1..]);
      assert a == [a[0]] + a[1..] && b == [b[0]] + b[1..];
    }
  }

  lemma {:induction false} LexLeTransitive(a: string, b: string, c: string)
    requires LexLe(a, b) && LexLe(b, c)
    ensures LexLe(a, c)
  {
    if a != [] && b != [] && c != [] && a[0] == b[0] == c[0] {
      LexLeTransitive(a[1..], b[1..], c[1..]);
    }
  }

  // ------------------------------------------------------ split and join

  /** `s.split(sep)` for a one-character separator. */
  function Split(s: string, sep: char): (parts: seq<string>)
    ensures |parts| >= 1
    ensures forall i :: 0 <= i < |parts| ==> sep !in parts[i]
  {
    if s == [] then [[]]
    else if s[0] == sep then [[]] + Split(s[1..], sep)
    else
      var t := Split(s[1..], sep);
      [[s[0]] + t[0]] + t[1..]
  }

  /** `parts.join(sep)` for a one-character separator. */
  function Join(parts: seq<string>, sep: char): (s: string)
    ensures |parts| > 0 ==> parts[0] <= s
    ensures |parts| > 1 ==> |parts[0]| < |s| && s[|parts[0]|] == sep
  {
    if |parts| == 0 then []
    else if |parts| == 1 then parts[0]
    else parts[0] + [sep] + Join(parts[1..], sep)
  }

  /** Joining what was split restores the original string. */
  lemma {:induction false} JoinSplit(s: string, sep: char)
    ensures Join(Split(s, sep), sep) == s
  {
    if s != [] {
      var t := Split(s[1..], sep);
      JoinSplit(s[1..], sep);
      if s[0] == sep {
        assert Split(s, sep) == [[]] + t;
      } else {
        assert Split(s, sep) == [[s[0]] + t[0]] + t[1..];
        if |t| > 1 {
          assert ([[s[0]] + t[0]] + t[1..])[1..] == t[1..];
        }
      }
    }
  }

  /** Splitting what was joined from separator-free parts gives the parts back. */
  lemma {:induction false} SplitJoin(parts: seq<string>, sep: char)
    requires |parts| >= 1
    requires forall i :: 0 <= i < |parts| ==> sep !in parts[i]
    ensures Split(Join(parts, sep), sep) == parts
  {
    if |parts| == 1 {
      SplitWithoutSeparator(parts[0], sep);
    } else {
      SplitJoin(parts[1..], sep);
      SplitAppend(parts[0], Join(parts[1..], sep), sep);
      SplitWithoutSeparator(parts[0], sep);
      assert [parts[0]] + parts[1..] == parts;
    }
  }

  /** Splitting at a separator splits the two sides independently. */
  lemma {:induction false} SplitAppend(a: string, b: string, sep: char)
    ensures Split(a + [sep] + b, sep) == Split(a, sep) + Split(b, sep)
  {
    if a == [] {
      assert a + [sep] + b == [sep] + b;
      assert ([sep] + b)[1..] == b;
    } else {
      var s := a + [sep] + b;
      assert s[0] == a[0] && s[1..] == a[1..] + [sep] + b;
      SplitAppend(a[1..], b, sep);
      if a[0] != sep {
        var u := Split(a[1..], sep);
        var t := u + Split(b, sep);
        assert t[0] == u[0] && t[1..] == u[1..] + Split(b, sep);
      }
    }
  }

  /** A string without the separator splits into itself alone. */
  lemma {:induction false} SplitWithoutSeparator(s: string, sep: char)
    requires sep !in s
    ensures Split(s, sep) == [s]
  {
    if s != [] {
      assert sep !in s[1..];
      SplitWithoutSeparator(s[1..], sep);
      assert [s[0]] + s[1..] == s;
    }
  }

  /** `xs.indexOf(x)`: the first position of `x`, or -1. */
  function IndexOf<T(==)>(xs: seq<T>, x: T): (r: int)
    ensures -1 <= r < |xs|
    ensures r == -1 <==> x !in xs
    ensures r >= 0 ==> xs[r] == x && x !in xs[..r]
  {
    if xs == [] then -1
    else if xs[0] == x then 0
    else
      var k := IndexOf(xs[1..], x);
      if k == -1 then -1 else k + 1
  }

  /** The first occurrence of `x` is where `ys` starts when `xs` lacks it. */
  lemma IndexOfAfter<T>(xs: seq<T>, ys: seq<T>, x: T)
    requires x !in xs && |ys| > 0 && ys[0] == x
    ensures IndexOf(xs + ys, x) == |xs|
  {
    assert (xs + ys)[|xs|] == x;
  }

  /** `s.lastIndexOf(c)`: the last position of `c`, or -1. */
  function LastIndexOf(s: string, c: char): (r: int)
    ensures -1 <= r < |s|
    ensures r == -1 <==> c !in s
    ensures r >= 0 ==> s[r] == c && c !in s[r + 1..]
  {
    if s == [] then -1
    else if s[|s| - 1] == c then |s| - 1
    else LastIndexOf(s[..|s| - 1], c)
  }

  /** The last `c` is the one placed before a suffix free of `c`. */
  lemma LastIndexOfBefore(s: string, c: char, t: string)
    requires c !in t
    ensures LastIndexOf(s + [c] + t, c) == |s|
  {
    assert (s + [c] + t)[|s|] == c;
  }

  /** `xs.slice(start)` for a non-negative start: empty once start passes the end. */
  function SliceFrom<T>(xs: seq<T>, start: nat): (r: seq<T>)
    ensures start <= |xs| ==> xs == xs[..start] + r
    ensures start >= |xs| ==> r == []
  {
    if start <= |xs| then xs[start..] else []
  }

  /** `s.substring(0, end)`: a negative end counts as 0, one past the length as the length. */
  function SubstringTo(s: string, end: int): (r: string)
    ensures r <= s
    ensures 0 <= end <= |s| ==> |r| == end
    ensures end >= |s| ==> r == s
  {
    if end <= 0 then [] else if end >= |s| then s else s[..end]
  }
}
