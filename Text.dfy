/** The Python string operations the core relies on: `str.strip()`,
    decimal formatting of an `int` in an f-string, and `"\n".join` with its
    inverse `split("\n")`. */
module Text {

  /** Python's `str.isspace()` for a single character. */
  predicate IsSpace(c: char) {
    ('\t' <= c <= '\r') || ('\U{1C}' <= c <= ' ') ||
    c == '\U{85}' || c == '\U{A0}' || c == '\U{1680}' ||
    ('\U{2000}' <= c <= '\U{200A}') ||
    c == '\U{2028}' || c == '\U{2029}' || c == '\U{202F}' ||
    c == '\U{205F}' || c == '\U{3000}'
  }

  predicate AllSpace(s: string) {
    forall k :: 0 <= k < |s| ==> IsSpace(s[k])
  }

  /** Neither end of `s` is whitespace. */
  predicate Trimmed(s: string) {
    s == [] || (!IsSpace(s[0]) && !IsSpace(s[|s| - 1]))
  }

  /** Number of whitespace characters at the start of `s`. */
  function LeadingSpace(s: string): (n: nat)
    ensures n <= |s|
  {
    if s == [] || !IsSpace(s[0]) then 0 else 1 + LeadingSpace(s[1..])
  }

  /** Number of whitespace characters at the end of `s`. */
  function TrailingSpace(s: string): (n: nat)
    ensures n <= |s|
  {
    if s == [] || !IsSpace(s[|s| - 1]) then 0 else 1 + TrailingSpace(s[..|s| - 1])
  }

  /** Python's `s.strip()` with no argument. */
  function Strip(s: string): string {
    var t := s[LeadingSpace(s)..];
    t[..|t| - TrailingSpace(t)]
  }

  lemma {:induction false} LeadingSpaceAppend(a: string, t: string)
    requires AllSpace(a)
    ensures LeadingSpace(a + t) == |a| + LeadingSpace(t)
  {
    if a != [] {
      assert (a + t)[1..] == a[1..] + t;
      LeadingSpaceAppend(a[1..], t);
    } else {
      assert a + t == t;
    }
  }

  lemma {:induction false} TrailingSpaceAppend(t: string, b: string)
    requires AllSpace(b)
    ensures TrailingSpace(t + b) == |b| + TrailingSpace(t)
  {
    if b != [] {
      assert (t + b)[..|t + b| - 1] == t + b[..|b| - 1];
      TrailingSpaceAppend(t, b[..|b| - 1]);
    } else {
      assert t + b == t;
    }
  }

  /** `strip` is determined by what it keeps: surrounding `m` with any
      whitespace on either side and stripping gives back exactly `m`, as long
      as `m` itself neither starts nor ends with whitespace. */
  lemma StripCharacterization(a: string, m: string, b: string)
    requires AllSpace(a) && AllSpace(b) && Trimmed(m)
    ensures Strip(a + m + b) == m
  {
    var s := a + m + b;
    assert s == a + (m + b);
    LeadingSpaceAppend(a, m + b);
    if m == [] {
      assert m + b == b;
      LeadingSpaceAppend(b, []);
      assert b + [] == b;
      assert s[LeadingSpace(s)..] == [];
    } else {
      assert LeadingSpace(m + b) == 0;
      assert s[|a|..] == m + b;
      TrailingSpaceAppend(m, b);
      assert TrailingSpace(m) == 0;
      assert (m + b)[..|m|] == m;
    }
  }

  /** What `strip` returns is the slice of `s` left after removing the
      leading and trailing whitespace, and it has no whitespace at either end. */
  lemma StripSlice(s: string)
    ensures LeadingSpace(s) + |Strip(s)| <= |s|
    ensures Strip(s) == s[LeadingSpace(s)..LeadingSpace(s) + |Strip(s)|]
    ensures AllSpace(s[..LeadingSpace(s)])
    ensures AllSpace(s[LeadingSpace(s) + |Strip(s)|..])
    ensures Trimmed(Strip(s))
  {
    LeadingPrefix(s);
    var t := s[LeadingSpace(s)..];
    TrailingSuffix(t);
    assert t[|t| - TrailingSpace(t)..] == s[LeadingSpace(s) + |Strip(s)|..];
    var r := Strip(s);
    if r != [] {
      assert r[0] == s[LeadingSpace(s)];
      assert r[|r| - 1] == t[|t| - TrailingSpace(t) - 1];
    }
  }

  lemma {:induction false} LeadingPrefix(s: string)
    ensures AllSpace(s[..LeadingSpace(s)])
    ensures LeadingSpace(s) < |s| ==> !IsSpace(s[LeadingSpace(s)])
  {
    if s != [] && IsSpace(s[0]) {
      LeadingPrefix(s[1..]);
      assert s[..LeadingSpace(s)] == [s[0]] + s[1..][..LeadingSpace(s[1..])];
    }
  }

  lemma {:induction false} TrailingSuffix(t: string)
    ensures AllSpace(t[|t| - TrailingSpace(t)..])
    ensures TrailingSpace(t) < |t| ==> !IsSpace(t[|t| - TrailingSpace(t) - 1])
  {
    if t != [] && IsSpace(t[|t| - 1]) {
      var u := t[..|t| - 1];
      TrailingSuffix(u);
      assert t[|t| - TrailingSpace(t)..] == u[|u| - TrailingSpace(u)..] + [t[|t| - 1]];
    }
  }

  /** Text with no whitespace at either end is left as it is. */
  lemma StripKeepsTrimmed(s: string)
    requires Trimmed(s)
    ensures Strip(s) == s
  {
    StripCharacterization([], s, []);
    assert [] + s + [] == s;
  }

  /** Stripping twice is stripping once. */
  lemma StripIdempotent(s: string)
    ensures Strip(Strip(s)) == Strip(s)
  {
    StripSlice(s);
    StripCharacterization([], Strip(s), []);
    assert [] + Strip(s) + [] == Strip(s);
  }

  /** Whitespace-only text strips to the empty string, and only such text does. */
  lemma StripEmpty(s: string)
    ensures Strip(s) == [] <==> AllSpace(s)
  {
    StripSlice(s);
    if AllSpace(s) {
      StripCharacterization(s, [], []);
      assert s + [] + [] == s;
    }
  }

  // ----- decimal formatting of a non-negative int, as `f"{n}"` prints it -----

  predicate IsDigit(c: char) { '0' <= c <= '9' }

  predicate AllDigits(s: string) {
    forall k :: 0 <= k < |s| ==> IsDigit(s[k])
  }

  function DigitChar(d: nat): (c: char)
    requires d < 10
    ensures IsDigit(c) && (c as int) - ('0' as int) == d
  {
    (('0' as int) + d) as char
  }

  /** Decimal digits of `n`, most significant first, no leading zero. */
  function DecimalString(n: nat): (s: string)
    ensures |s| > 0 && AllDigits(s)
    ensures s[0] == '0' ==> n == 0
  {
    if n < 10 then [DigitChar(n)] else DecimalString(n / 10) + [DigitChar(n % 10)]
  }

  /** The value a string of decimal digits denotes. */
  function DecimalValue(s: string): nat
    requires AllDigits(s)
  {
    if s == [] then 0
    else 10 * DecimalValue(s[..|s| - 1]) + ((s[|s| - 1] as int) - ('0' as int))
  }

  /** Reading back the printed digits of `n` gives `n`. */
  lemma {:induction false} DecimalRoundTrip(n: nat)
    ensures DecimalValue(DecimalString(n)) == n
  {
    var s := DecimalString(n);
    if n >= 10 {
      DecimalRoundTrip(n / 10);
      assert s[..|s| - 1] == DecimalString(n / 10);
    }
  }

  // ----- "\n".join and split("\n") -----

  /** Python's `"\n".join(lines)`. */
  function JoinLines(lines: seq<string>): string
  {
    if |lines| == 0 then ""
    else if |lines| == 1 then lines[0]
    else lines[0] + "\n" + JoinLines(lines[1..])
  }

  /** Position of the first occurrence of `c` in `s`. */
  function IndexOf(s: string, c: char): (k: nat)
    requires c in s
    ensures k < |s| && s[k] == c && c !in s[..k]
  {
    if s[0] == c then 0
    else
      assert s == [s[0]] + s[1..];
      var k := 1 + IndexOf(s[1..], c);
      assert s[..k] == [s[0]] + s[1..][..k - 1];
      k
  }

  /** Python's `s.split("\n")`. */
  function SplitLines(s: string): (lines: seq<string>)
    decreases |s|
  {
    if '\n' !in s then [s]
    else
      var k := IndexOf(s, '\n');
      [s[..k]] + SplitLines(s[k + 1..])
  }

  predicate NoNewline(lines: seq<string>) {
    forall i :: 0 <= i < |lines| ==> '\n' !in lines[i]
  }

  /** Splitting the joined text on newlines gives back exactly the lines that
      were joined, provided none of them holds a newline itself. */
  lemma {:induction false} SplitJoin(lines: seq<string>)
    requires |lines| > 0 && NoNewline(lines)
    ensures SplitLines(JoinLines(lines)) == lines
  {
    if |lines| > 1 {
      var l := lines[0];
      var rest := JoinLines(lines[1..]);
      var s := l + "\n" + rest;
      assert s[|l|] == '\n';
      var k := IndexOf(s, '\n');
      assert k == |l|;
      assert s[..k] == l;
      assert s[k + 1..] == rest;
      SplitJoin(lines[1..]);
      assert lines == [l] + lines[1..];
    }
  }

  // ----- substring containment -----

  /** `t` occurs somewhere inside `s` (Python's `t in s` on strings). */
  predicate Contains(s: string, t: string) {
    t <= s || (s != [] && Contains(s[1..], t))
  }

  /** Whatever surrounds `t`, the result contains `t`. */
  lemma {:induction false} ContainsMiddle(a: string, t: string, b: string)
    ensures Contains(a + t + b, t)
  {
    if a == [] {
      assert a + t + b == t + b;
    } else {
      assert (a + t + b)[1..] == a[1..] + t + b;
      ContainsMiddle(a[1..], t, b);
    }
  }
}
