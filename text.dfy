/** String operations the drivers apply to node addresses, written as Python performs them. */
module Text {
  import opened Base

  /** Python's truthiness of an optional string argument: given and not empty. */
  predicate Given(s: Option<string>)
  {
    s.Some? && s.value != ""
  }

  /** Whether `t` occurs in `s` as a contiguous block. */
  predicate Occurs(s: string, t: string)
    requires t != []
    decreases |s|
  {
    |s| >= |t| && (s[..|t|] == t || Occurs(s[1..], t))
  }

  /** `re.sub(pat, rep, s)` for a pattern without metacharacters: occurrences are replaced from the
      left, without overlap. */
  function ReplaceAll(s: string, pat: string, rep: string): string
    requires pat != []
    decreases |s|
  {
    if |s| < |pat| then s
    else if s[..|pat|] == pat then rep + ReplaceAll(s[|pat|..], pat, rep)
    else [s[0]] + ReplaceAll(s[1..], pat, rep)
  }

  /** A string in which the pattern does not occur is left as it is. */
  lemma {:induction false} ReplaceAllAbsent(s: string, pat: string, rep: string)
    requires pat != [] && !Occurs(s, pat)
    ensures ReplaceAll(s, pat, rep) == s
    decreases |s|
  {
    if |s| >= |pat| {
      ReplaceAllAbsent(s[1..], pat, rep);
      assert s == [s[0]] + s[1..];
    }
  }

  /** A first character that cannot start the pattern is copied through. */
  lemma ReplaceAllCons(c: char, u: string, pat: string, rep: string)
    requires pat != [] && c != pat[0]
    ensures ReplaceAll([c] + u, pat, rep) == [c] + ReplaceAll(u, pat, rep)
  {
    var s := [c] + u;
    assert s[1..] == u;
    if |s| >= |pat| {
      assert s[..|pat|][0] == c;
    }
  }

  /** A string that starts with the pattern has that occurrence replaced. */
  lemma ReplaceAllHead(pat: string, u: string, rep: string)
    requires pat != []
    ensures ReplaceAll(pat + u, pat, rep) == rep + ReplaceAll(u, pat, rep)
  {
    var s := pat + u;
    assert s[..|pat|] == pat && s[|pat|..] == u;
  }

  /** A prefix none of whose characters can start the pattern is copied through. */
  lemma {:induction false} ReplaceAllSkip(a: string, u: string, pat: string, rep: string)
    requires pat != [] && pat[0] !in a
    ensures ReplaceAll(a + u, pat, rep) == a + ReplaceAll(u, pat, rep)
    decreases |a|
  {
    if a != [] {
      ReplaceAllSkip(a[1..], u, pat, rep);
      assert pat[0] !in a[1..] && a == [a[0]] + a[1..];
      ReplaceAllCons(a[0], a[1..] + u, pat, rep);
      assert a + u == [a[0]] + (a[1..] + u);
      assert a + ReplaceAll(u, pat, rep) == [a[0]] + (a[1..] + ReplaceAll(u, pat, rep));
    } else {
      assert a + u == u;
    }
  }

  /** The index of the last occurrence of `c` in `s`, or -1 when there is none. */
  function LastIndex(s: string, c: char): (k: int)
    ensures -1 <= k < |s|
    ensures k == -1 <==> c !in s
    ensures 0 <= k ==> s[k] == c && c !in s[k + 1..]
    decreases |s|
  {
    if s == [] then -1
    else if s[|s| - 1] == c then |s| - 1
    else
      assert s == s[..|s| - 1] + [s[|s| - 1]];
      LastIndex(s[..|s| - 1], c)
  }

  /** `s.rsplit(c, maxsplit=1)[0]`: what precedes the last `c`, or all of `s` when `c` does not occur. */
  function BeforeLast(s: string, c: char): (r: string)
    ensures c !in s ==> r == s
    ensures c in s ==> |r| < |s| && s[..|r|] == r && s[|r|] == c && c !in s[|r| + 1..]
  {
    var k := LastIndex(s, c);
    if k < 0 then s else s[..k]
  }

  /** An occurrence of `c` with no `c` after it is where `BeforeLast` cuts. */
  lemma BeforeLastAt(s: string, c: char, p: nat)
    requires p < |s| && s[p] == c && c !in s[p + 1..]
    ensures BeforeLast(s, c) == s[..p]
  {
    assert c in s;
  }

  /** The index of the first occurrence of `c` in `s`, or |s| when there is none. */
  function IndexOf(s: string, c: char): (k: nat)
    ensures k <= |s| && c !in s[..k] && (k < |s| ==> s[k] == c)
    decreases |s|
  {
    if s == [] || s[0] == c then 0
    else
      assert s[..1 + IndexOf(s[1..], c)] == [s[0]] + s[1..][..IndexOf(s[1..], c)];
      1 + IndexOf(s[1..], c)
  }

  /** The pieces separated by `c`, put back together. */
  function Join(parts: seq<string>, c: char): string
    requires |parts| >= 1
  {
    if |parts| == 1 then parts[0] else parts[0] + [c] + Join(parts[1..], c)
  }

  /** `s.split(c)`: the `c`-free pieces of `s` between the occurrences of `c`, empty pieces included. */
  function Split(s: string, c: char): (parts: seq<string>)
    ensures |parts| >= 1
    ensures forall i :: 0 <= i < |parts| ==> c !in parts[i]
    ensures Join(parts, c) == s
    decreases |s|
  {
    var k := IndexOf(s, c);
    if k == |s| then
      assert s[..k] == s;
      [s]
    else
      var rest := Split(s[k + 1..], c);
      assert ([s[..k]] + rest)[1..] == rest;
      assert s == s[..k] + [c] + s[k + 1..];
      [s[..k]] + rest
  }

  /** Splitting at the first separator keeps the leading piece and splits the remainder. */
  lemma SplitCons(a: string, t: string, c: char)
    requires c !in a
    ensures Split(a + [c] + t, c) == [a] + Split(t, c)
  {
    var s := a + [c] + t;
    assert s[|a|] == c && s[..|a|] == a;
    assert IndexOf(s, c) == |a|;
    assert s[|a| + 1..] == t;
  }

  /** A string without the separator is a single piece. */
  lemma SplitNone(a: string, c: char)
    requires c !in a
    ensures Split(a, c) == [a]
  {
    assert IndexOf(a, c) == |a|;
  }

  predicate IsDigit(ch: char) { '0' <= ch <= '9' }

  predicate AllDigits(s: string) { forall i :: 0 <= i < |s| ==> IsDigit(s[i]) }

  function DigitValue(ch: char): nat
    requires IsDigit(ch)
  {
    ch as int - '0' as int
  }

  function DigitChar(d: nat): (ch: char)
    requires d < 10
    ensures IsDigit(ch) && DigitValue(ch) == d
  {
    ('0' as int + d) as char
  }

  /** `str(n)` for a natural number: its decimal digits, without leading zeros. */
  function NatToString(n: nat): (s: string)
    ensures |s| >= 1 && AllDigits(s)
    ensures |s| == 1 || s[0] != '0'
    ensures s[0] == '0' <==> n == 0
    decreases n
  {
    if n < 10 then [DigitChar(n)] else NatToString(n / 10) + [DigitChar(n % 10)]
  }

  /** The value of a string of decimal digits. */
  function DigitsValue(s: string): nat
    requires AllDigits(s)
    decreases |s|
  {
    if s == [] then 0 else 10 * DigitsValue(s[..|s| - 1]) + DigitValue(s[|s| - 1])
  }

  /** `int(s)` for an optionally signed run of decimal digits; anything else makes Python raise
      ValueError, which is None here. */
  function ParseInt(s: string): Option<int>
  {
    if |s| >= 2 && (s[0] == '-' || s[0] == '+') && AllDigits(s[1..]) then
      var magnitude: int := DigitsValue(s[1..]);
      Some(if s[0] == '-' then -magnitude else magnitude)
    else if |s| >= 1 && AllDigits(s) then Some(DigitsValue(s) as int)
    else None
  }

  /** Reading back the decimal digits of `n` gives `n`. */
  lemma {:induction false} DecimalRoundTrip(n: nat)
    ensures DigitsValue(NatToString(n)) == n
    decreases n
  {
    if n >= 10 {
      DecimalRoundTrip(n / 10);
      var s := NatToString(n);
      assert s[..|s| - 1] == NatToString(n / 10);
    }
  }

  /** `int(str(n)) == n`. */
  lemma ParseIntOfDecimal(n: nat)
    ensures ParseInt(NatToString(n)) == Some(n)
  {
    DecimalRoundTrip(n);
  }

  /** Different numbers have different decimal strings. */
  lemma NatToStringInjective(m: nat, n: nat)
    ensures NatToString(m) == NatToString(n) ==> m == n
  {
    DecimalRoundTrip(m);
    DecimalRoundTrip(n);
  }
}
