/** Character classes and string operations of JavaScript that the server code
    relies on: the `\s` and `\d` regular-expression classes, `String.prototype.trim`,
    `parseInt` of a digit run, and the decimal rendering of a non-negative integer. */
module Text {

  /** JavaScript's `\s`: WhiteSpace and LineTerminator code points. `trim`
      removes exactly the same set. */
  predicate IsSpace(c: char)
  {
    var n := c as int;
    (9 <= n <= 13) || n == 32 || n == 0xA0 || n == 0x1680 || (0x2000 <= n <= 0x200A)
    || n == 0x2028 || n == 0x2029 || n == 0x202F || n == 0x205F || n == 0x3000 || n == 0xFEFF
  }

  /** JavaScript's `\d`: ASCII digits only. */
  predicate IsDigit(c: char)
  {
    '0' <= c <= '9'
  }

  predicate AllDigits(s: string)
  {
    forall k :: 0 <= k < |s| ==> IsDigit(s[k])
  }

  /** The case folding of a non-unicode `/i` regular expression, restricted to
      what matters here: an ASCII capital letter matches its lower-case letter
      and nothing outside ASCII folds onto ASCII. */
  function Lower(c: char): char
  {
    if 'A' <= c <= 'Z' then (c as int + 32) as char else c
  }

  /** No leading and no trailing whitespace. */
  predicate Trimmed(s: string)
  {
    s == [] || (!IsSpace(s[0]) && !IsSpace(s[|s| - 1]))
  }

  function TrimStart(s: string): (r: string)
    ensures |r| <= |s| && r == s[|s| - |r|..]
    ensures forall k :: 0 <= k < |s| - |r| ==> IsSpace(s[k])
    ensures r == [] || !IsSpace(r[0])
  {
    if |s| > 0 && IsSpace(s[0]) then TrimStart(s[1..]) else s
  }

  function TrimEnd(s: string): (r: string)
    ensures |r| <= |s| && r == s[..|r|]
    ensures forall k :: |r| <= k < |s| ==> IsSpace(s[k])
    ensures r == [] || !IsSpace(r[|r| - 1])
  {
    if |s| > 0 && IsSpace(s[|s| - 1]) then TrimEnd(s[..|s| - 1]) else s
  }

  /** The number of whitespace characters `trim` drops at the front. */
  function Leading(s: string): (n: nat)
    ensures n <= |s|
  {
    |s| - |TrimStart(s)|
  }

  /** `s.trim()`: the slice of `s` left after dropping the whitespace at both
      ends, which has no whitespace at either end. */
  function Trim(s: string): (r: string)
    ensures Trimmed(r) && Leading(s) + |r| <= |s|
    ensures r == s[Leading(s)..Leading(s) + |r|]
    ensures forall k :: 0 <= k < Leading(s) ==> IsSpace(s[k])
    ensures forall k :: Leading(s) + |r| <= k < |s| ==> IsSpace(s[k])
  {
    var t := TrimStart(s);
    var r := TrimEnd(t);
    var n := Leading(s);
    assert r == [] || r[0] == t[0];
    SuffixPrefix(s, n, |r|);
    SpacesAfter(s, n, |r|);
    r
  }

  lemma SuffixPrefix(s: string, n: nat, m: nat)
    requires n + m <= |s|
    ensures s[n..][..m] == s[n..n + m]
  {
  }

  /** Whitespace after `m` characters of the suffix from `n` is whitespace
      after `n + m` characters of the whole. */
  lemma SpacesAfter(s: string, n: nat, m: nat)
    requires n + m <= |s|
    requires forall k :: m <= k < |s| - n ==> IsSpace(s[n..][k])
    ensures forall k :: n + m <= k < |s| ==> IsSpace(s[k])
  {
    forall k | n + m <= k < |s|
      ensures IsSpace(s[k])
    {
      assert s[k] == s[n..][k - n];
    }
  }

  /** The end of the run of whitespace that starts at `i`. */
  function SpaceEnd(s: string, i: nat): (j: nat)
    requires i <= |s|
    ensures i <= j <= |s|
    ensures forall k :: i <= k < j ==> IsSpace(s[k])
    ensures j == |s| || !IsSpace(s[j])
    decreases |s| - i
  {
    if i < |s| && IsSpace(s[i]) then SpaceEnd(s, i + 1) else i
  }

  /** The end of the run of digits that starts at `i`. */
  function DigitEnd(s: string, i: nat): (j: nat)
    requires i <= |s|
    ensures i <= j <= |s|
    ensures AllDigits(s[i..j])
    ensures j == |s| || !IsDigit(s[j])
    decreases |s| - i
  {
    if i < |s| && IsDigit(s[i]) then DigitEnd(s, i + 1) else i
  }

  /** The position of the first `-` at or after `i`, or the end of `s`. */
  function DashEnd(s: string, i: nat): (j: nat)
    requires i <= |s|
    ensures i <= j <= |s|
    ensures forall k :: i <= k < j ==> s[k] != '-'
    ensures j == |s| || s[j] == '-'
    decreases |s| - i
  {
    if i < |s| && s[i] != '-' then DashEnd(s, i + 1) else i
  }

  function DigitValue(c: char): nat
    requires IsDigit(c)
  {
    c as int - '0' as int
  }

  function DigitChar(d: nat): (c: char)
    requires d < 10
    ensures IsDigit(c) && DigitValue(c) == d
  {
    ('0' as int + d) as char
  }

  /** A whitespace run from `i` that stops at a non-space or the end is the
      run `SpaceEnd` finds: the greedy run is unique. */
  lemma SpaceRun(s: string, i: nat, j: nat)
    requires i <= j <= |s|
    requires forall k :: i <= k < j ==> IsSpace(s[k])
    requires j == |s| || !IsSpace(s[j])
    ensures SpaceEnd(s, i) == j
  {
  }

  /** A digit run from `i` that stops at a non-digit or the end is the run
      `DigitEnd` finds. */
  lemma DigitRun(s: string, i: nat, j: nat)
    requires i <= j <= |s|
    requires forall k :: i <= k < j ==> IsDigit(s[k])
    requires j == |s| || !IsDigit(s[j])
    ensures DigitEnd(s, i) == j
  {
  }

  /** A `-`-free stretch from `i` that stops at a `-` or the end is the one
      `DashEnd` finds. */
  lemma DashRun(s: string, i: nat, j: nat)
    requires i <= j <= |s|
    requires forall k :: i <= k < j ==> s[k] != '-'
    requires j == |s| || s[j] == '-'
    ensures DashEnd(s, i) == j
  {
  }

  /** Leading whitespace makes no difference to `trimStart`. */
  lemma {:induction false} TrimStartSkips(s: string, n: nat)
    requires n <= |s|
    requires forall k :: 0 <= k < n ==> IsSpace(s[k])
    ensures TrimStart(s) == TrimStart(s[n..])
    decreases n
  {
    if n > 0 {
      var rest := s[1..];
      forall k | 0 <= k < n - 1
        ensures IsSpace(rest[k])
      {
        assert rest[k] == s[k + 1];
      }
      TrimStartSkips(rest, n - 1);
      assert rest[n - 1..] == s[n..];
    }
  }

  /** One leading space does not change the trimmed text. */
  lemma TrimLeadingSpace(t: string)
    ensures Trim(" " + t) == Trim(t)
  {
    var u := " " + t;
    assert IsSpace(u[0]);
    TrimSkips(u, 1);
    assert u[1..] == t;
  }

  /** Leading whitespace makes no difference to `trim`. */
  lemma TrimSkips(s: string, n: nat)
    requires n <= |s|
    requires forall k :: 0 <= k < n ==> IsSpace(s[k])
    ensures Trim(s) == Trim(s[n..])
  {
    TrimStartSkips(s, n);
  }

  /** `parseInt` of a run of decimal digits (exact: no precision is lost). */
  function DecimalValue(ds: string): nat
    requires AllDigits(ds)
  {
    if ds == [] then 0 else DecimalValue(ds[..|ds| - 1]) * 10 + DigitValue(ds[|ds| - 1])
  }

  /** The decimal text of `n` as a template literal renders it: digits only,
      no leading zero. */
  function NatToString(n: nat): (s: string)
    ensures |s| > 0 && AllDigits(s)
    ensures |s| > 1 ==> s[0] != '0'
  {
    if n < 10 then [DigitChar(n)] else NatToString(n / 10) + [DigitChar(n % 10)]
  }

  /** Reading back the rendered text gives the number: rendering is injective. */
  lemma {:induction false} DecimalRoundTrip(n: nat)
    ensures DecimalValue(NatToString(n)) == n
  {
    var s := NatToString(n);
    if n >= 10 {
      DecimalRoundTrip(n / 10);
      assert s[..|s| - 1] == NatToString(n / 10);
    }
  }
}
