/**
 * The .NET string operations the encoder is built from: `String.Replace`,
 * `String.Join`, decimal formatting of integers, and the parsing functions
 * that serve as their partners in round-trip lemmas.
 *
 * A `string` element stands for one character of a .NET string, which is one
 * UTF-16 code unit for text within the Basic Multilingual Plane.
 */
module Text {

  predicate IsDigit(c: char) { '0' <= c <= '9' }

  predicate AllDigits(s: string) { forall i :: 0 <= i < |s| ==> IsDigit(s[i]) }

  predicate IsPrefix(p: string, s: string) { |p| <= |s| && s[..|p|] == p }

  predicate IsSuffix(p: string, s: string) { |p| <= |s| && s[|s| - |p|..] == p }

  /** A suffix of `s` that ends with `y` shows that `s` ends with `y`. */
  lemma SuffixOfSuffix(x: string, y: string, s: string)
    requires IsSuffix(x + y, s)
    ensures IsSuffix(y, s)
  {
    assert s[|s| - |y|..] == (x + y)[|x|..];
  }

  /** A three-part concatenation starts with its first part and ends with its last. */
  lemma ConcatEnds(a: string, b: string, c: string)
    ensures IsPrefix(a, a + (b + c)) && IsSuffix(c, a + (b + c))
  {
    var r := a + (b + c);
    assert r[..|a|] == a;
    assert r[|r| - |c|..] == c;
  }

  lemma PrefixTransitive(a: string, b: string, c: string)
    requires IsPrefix(a, b) && IsPrefix(b, c)
    ensures IsPrefix(a, c)
  {
    assert c[..|a|] == c[..|b|][..|a|];
  }

  // ---------------------------------------------------------------------------
  // String.Replace

  /**
   * `s.Replace(pat, rep)`: scans left to right and replaces every
   * non-overlapping occurrence of `pat`.
   */
  function Replace(s: string, pat: string, rep: string): (r: string)
    requires pat != []
    ensures forall c :: c in r ==> c in s || c in rep
    decreases |s|
  {
    if |s| < |pat| then s
    else if s[..|pat|] == pat then
      var tail := s[|pat|..];
      assert forall c :: c in tail ==> c in s by {
        forall c | c in tail ensures c in s {
          var k :| 0 <= k < |tail| && tail[k] == c;
          assert s[|pat| + k] == c;
        }
      }
      rep + Replace(tail, pat, rep)
    else
      var tail := s[1..];
      assert forall c :: c in tail ==> c in s by {
        forall c | c in tail ensures c in s {
          var k :| 0 <= k < |tail| && tail[k] == c;
          assert s[1 + k] == c;
        }
      }
      [s[0]] + Replace(tail, pat, rep)
  }

  /** Reference definition for a one-character pattern: every `c` becomes `rep`. */
  function ReplaceChar(s: string, c: char, rep: string): string
  {
    if s == [] then [] else (if s[0] == c then rep else [s[0]]) + ReplaceChar(s[1..], c, rep)
  }

  lemma {:induction false} ReplaceSingleChar(s: string, c: char, rep: string)
    ensures Replace(s, [c], rep) == ReplaceChar(s, c, rep)
    decreases |s|
  {
    if s != [] {
      assert s[..1] == [c] <==> s[0] == c;
      ReplaceSingleChar(s[1..], c, rep);
    }
  }

  lemma {:induction false} ReplaceCharAppend(a: string, b: string, c: char, rep: string)
    ensures ReplaceChar(a + b, c, rep) == ReplaceChar(a, c, rep) + ReplaceChar(b, c, rep)
    decreases |a|
  {
    if a != [] {
      assert (a + b)[1..] == a[1..] + b;
      ReplaceCharAppend(a[1..], b, c, rep);
    } else {
      assert a + b == b;
    }
  }

  // ---------------------------------------------------------------------------
  // String.Join, and splitting on a separator character

  /** `string.Join(sep, xs)`. */
  function Join(sep: string, xs: seq<string>): string
  {
    if xs == [] then "" else if |xs| == 1 then xs[0] else xs[0] + sep + Join(sep, xs[1..])
  }

  /** Index of the first `c` in `s`, or `|s|` when there is none. */
  function IndexOf(s: string, c: char): (i: nat)
    ensures i <= |s|
    ensures forall j :: 0 <= j < i ==> s[j] != c
    ensures i < |s| ==> s[i] == c
  {
    if s == [] then 0 else if s[0] == c then 0 else 1 + IndexOf(s[1..], c)
  }

  /** Splits `s` at every `c`; the partner of `Join`. */
  function Split(s: string, c: char): (parts: seq<string>)
    ensures |parts| >= 1
    decreases |s|
  {
    var i := IndexOf(s, c);
    if i == |s| then [s] else [s[..i]] + Split(s[i + 1..], c)
  }

  lemma IndexOfAfter(x: string, c: char, rest: string)
    requires c !in x
    ensures IndexOf(x + [c] + rest, c) == |x|
  {
    var s := x + [c] + rest;
    assert forall j :: 0 <= j < |x| ==> s[j] == x[j];
    assert s[|x|] == c;
  }

  /** Joining separator-free parts and splitting again gives the parts back. */
  lemma {:induction false} SplitJoin(xs: seq<string>, c: char)
    requires xs != []
    requires forall k :: 0 <= k < |xs| ==> c !in xs[k]
    ensures Split(Join([c], xs), c) == xs
    decreases |xs|
  {
    if |xs| == 1 {
      assert c !in xs[0];
    } else {
      var rest := Join([c], xs[1..]);
      var s := Join([c], xs);
      assert s == xs[0] + [c] + rest;
      IndexOfAfter(xs[0], c, rest);
      assert s[..|xs[0]|] == xs[0];
      assert s[|xs[0]| + 1..] == rest;
      SplitJoin(xs[1..], c);
      assert [xs[0]] + xs[1..] == xs;
    }
  }

  /** Dropping leading parts never lengthens a join. */
  lemma {:induction false} JoinSuffixShorter(sep: string, a: seq<string>, b: seq<string>)
    ensures |Join(sep, b)| <= |Join(sep, a + b)|
    decreases |a|
  {
    if a != [] {
      JoinSuffixShorter(sep, a[1..], b);
      assert (a + b)[1..] == a[1..] + b;
    } else {
      assert a + b == b;
    }
  }

  // ---------------------------------------------------------------------------
  // Culture-invariant decimal formatting of integers and its parser

  function DigitChar(d: nat): (c: char)
    requires d < 10
    ensures IsDigit(c)
  {
    ('0' as int + d) as char
  }

  function DigitValue(c: char): nat
    requires IsDigit(c)
  {
    c as int - '0' as int
  }

  /** `n.ToString(CultureInfo.InvariantCulture)` for a non-negative `n`. */
  function NatToString(n: nat): (r: string)
    ensures |r| >= 1 && AllDigits(r)
  {
    if n < 10 then [DigitChar(n)] else NatToString(n / 10) + [DigitChar(n % 10)]
  }

  /** `i.ToString(CultureInfo.InvariantCulture)`: a minus sign, then the digits. */
  function IntToString(i: int): string
  {
    if i < 0 then "-" + NatToString(-i) else NatToString(i)
  }

  function ParseNat(s: string): nat
    requires AllDigits(s)
  {
    if s == [] then 0 else ParseNat(s[..|s| - 1]) * 10 + DigitValue(s[|s| - 1])
  }

  lemma {:induction false} ParseNatToString(n: nat)
    ensures ParseNat(NatToString(n)) == n
  {
    if n >= 10 {
      var s := NatToString(n);
      assert s[..|s| - 1] == NatToString(n / 10);
      ParseNatToString(n / 10);
    }
  }

  /**
   * A formatted integer holds no `|` and parses back to its value: the digits
   * give the value, after a minus sign when it is negative.
   */
  lemma IntToStringParses(i: int)
    ensures '|' !in IntToString(i)
    ensures i >= 0 ==> AllDigits(IntToString(i)) && ParseNat(IntToString(i)) == i
    ensures i < 0 ==> var st := IntToString(i);
                      st[0] == '-' && AllDigits(st[1..]) && ParseNat(st[1..]) == -i
  {
    var st := IntToString(i);
    if i >= 0 {
      ParseNatToString(i);
    } else {
      assert st[1..] == NatToString(-i);
      ParseNatToString(-i);
      assert forall k :: 1 <= k < |st| ==> st[k] == NatToString(-i)[k - 1];
    }
  }

  /** Length of the longest prefix of `s` made of decimal digits. */
  function LeadingDigits(s: string): (k: nat)
    ensures k <= |s|
    ensures forall i :: 0 <= i < k ==> IsDigit(s[i])
    ensures k < |s| ==> !IsDigit(s[k])
  {
    if s == [] || !IsDigit(s[0]) then 0 else 1 + LeadingDigits(s[1..])
  }

  lemma LeadingDigitsOfNumber(d: string, rest: string)
    requires AllDigits(d)
    requires rest != [] && !IsDigit(rest[0])
    ensures LeadingDigits(d + rest) == |d|
  {
    var s := d + rest;
    assert forall i :: 0 <= i < |d| ==> s[i] == d[i];
    assert s[|d|] == rest[0];
  }
}
