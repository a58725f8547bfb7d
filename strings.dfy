/** String operations the dashboard relies on, in JavaScript's terms:
    `trim`, ASCII `toLowerCase`/`toUpperCase`, `includes`, the default
    comparison used by `Array.prototype.sort` (here by code point, where
    JavaScript compares UTF-16 code units), and the decimal rendering of a
    non-negative integer. */
module Strings {

  /** The WhiteSpace and LineTerminator code points that `String.prototype.trim` removes. */
  predicate IsSpace(c: char) {
    || c == '\t' || c == '\n' || c == '\U{B}' || c == '\U{C}' || c == '\r' || c == ' '
    || c == '\U{A0}' || c == '\U{1680}' || ('\U{2000}' <= c <= '\U{200A}')
    || c == '\U{2028}' || c == '\U{2029}' || c == '\U{202F}' || c == '\U{205F}'
    || c == '\U{3000}' || c == '\U{FEFF}'
  }

  function TrimStart(s: string): (r: string)
    ensures |r| <= |s|
    decreases |s|
  {
    if s != [] && IsSpace(s[0]) then TrimStart(s[1..]) else s
  }

  function TrimEnd(s: string): (r: string)
    ensures |r| <= |s|
    decreases |s|
  {
    if s != [] && IsSpace(s[|s| - 1]) then TrimEnd(s[..|s| - 1]) else s
  }

  /** `s.trim()`. */
  function Trim(s: string): (r: string)
    ensures |r| <= |s|
  {
    TrimEnd(TrimStart(s))
  }

  /** `TrimStart` removes exactly the leading run of spaces. */
  lemma {:induction false} TrimStartSpec(s: string)
    ensures var r := TrimStart(s);
      && r == s[|s| - |r|..]
      && (r == [] || !IsSpace(r[0]))
      && forall i :: 0 <= i < |s| - |r| ==> IsSpace(s[i])
    decreases |s|
  {
    if s != [] && IsSpace(s[0]) {
      TrimStartSpec(s[1..]);
      var r := TrimStart(s);
      forall i | 1 <= i < |s| - |r| ensures IsSpace(s[i]) {
        assert s[i] == s[1..][i - 1];
      }
    }
  }

  /** `TrimEnd` removes exactly the trailing run of spaces. */
  lemma {:induction false} TrimEndSpec(s: string)
    ensures var r := TrimEnd(s);
      && r == s[..|r|]
      && (r == [] || !IsSpace(r[|r| - 1]))
      && forall i :: |r| <= i < |s| ==> IsSpace(s[i])
    decreases |s|
  {
    if s != [] && IsSpace(s[|s| - 1]) {
      TrimEndSpec(s[..|s| - 1]);
      var r := TrimEnd(s);
      forall i | |r| <= i < |s| - 1 ensures IsSpace(s[i]) {
        assert s[i] == s[..|s| - 1][i];
      }
    }
  }

  /** The trimmed string starts and ends with a non-space and is `s` with a
      run of spaces removed at each end; it is empty exactly when `s` is all
      spaces. */
  lemma TrimSpec(s: string)
    ensures var r := Trim(s);
      && (r == [] || (!IsSpace(r[0]) && !IsSpace(r[|r| - 1])))
      && (exists k :: OccursAt(s, r, k)
            && (forall i :: 0 <= i < k ==> IsSpace(s[i]))
            && (forall i :: k + |r| <= i < |s| ==> IsSpace(s[i])))
      && (r == [] <==> forall i :: 0 <= i < |s| ==> IsSpace(s[i]))
  {
    var t := TrimStart(s);
    var r := TrimEnd(t);
    TrimStartSpec(s);
    TrimEndSpec(t);
    var k := |s| - |t|;
    assert OccursAt(s, r, k);
    forall i | k + |r| <= i < |s| ensures IsSpace(s[i]) {
      assert s[i] == t[i - k];
    }
    if r != [] {
      assert r[0] == t[0];
    }
  }

  /** A string without surrounding spaces is its own trim. */
  lemma TrimNoSpaces(s: string)
    requires s == [] || (!IsSpace(s[0]) && !IsSpace(s[|s| - 1]))
    ensures Trim(s) == s
  {
  }

  lemma TrimIdempotent(s: string)
    ensures Trim(Trim(s)) == Trim(s)
  {
    TrimSpec(s);
    TrimNoSpaces(Trim(s));
  }

  function LowerChar(c: char): char {
    if 'A' <= c <= 'Z' then (c as int + 32) as char else c
  }

  function UpperChar(c: char): char {
    if 'a' <= c <= 'z' then (c as int - 32) as char else c
  }

  /** `s.toLowerCase()` for ASCII letters; every other character is kept. */
  function Lower(s: string): (r: string)
    ensures |r| == |s|
    ensures forall i :: 0 <= i < |s| ==> r[i] == LowerChar(s[i])
  {
    if s == [] then [] else [LowerChar(s[0])] + Lower(s[1..])
  }

  /** `s.toUpperCase()` for ASCII letters; every other character is kept. */
  function Upper(s: string): (r: string)
    ensures |r| == |s|
    ensures forall i :: 0 <= i < |s| ==> r[i] == UpperChar(s[i])
  {
    if s == [] then [] else [UpperChar(s[0])] + Upper(s[1..])
  }

  lemma {:induction false} LowerIdempotent(s: string)
    ensures Lower(Lower(s)) == Lower(s)
  {
    var l := Lower(s);
    assert forall i :: 0 <= i < |s| ==> LowerChar(l[i]) == l[i];
  }

  /** Upper-casing first does not change the lower-cased string. */
  lemma LowerUpper(s: string)
    ensures Lower(Upper(s)) == Lower(s)
  {
    var u := Upper(s);
    assert forall i :: 0 <= i < |s| ==> LowerChar(u[i]) == LowerChar(s[i]);
  }

  /** Lower-casing commutes with taking a slice. */
  lemma LowerSlice(s: string, i: nat, j: nat)
    requires i <= j <= |s|
    ensures Lower(s[i..j]) == Lower(s)[i..j]
  {
    var t := s[i..j];
    var l := Lower(s);
    var a := Lower(t);
    var b := l[i..j];
    assert |a| == |b|;
    forall k | 0 <= k < j - i ensures a[k] == b[k] {
      assert a[k] == LowerChar(t[k]);
      assert b[k] == l[i + k] == LowerChar(s[i + k]);
    }
  }

  lemma LowerAppend(a: string, b: string)
    ensures Lower(a + b) == Lower(a) + Lower(b)
  {
    var l := Lower(a + b);
    assert forall k :: 0 <= k < |a| ==> l[k] == LowerChar(a[k]);
    assert forall k :: 0 <= k < |b| ==> l[|a| + k] == LowerChar(b[k]);
  }

  /** `t` occurs in `s` starting at index `i`. */
  predicate OccursAt(s: string, t: string, i: int) {
    0 <= i && i + |t| <= |s| && s[i..i + |t|] == t
  }

  /** `s.includes(t)`. */
  predicate Contains(s: string, t: string)
    decreases |s|
  {
    |t| <= |s| && (s[..|t|] == t || Contains(s[1..], t))
  }

  lemma {:induction false} ContainsFromOccurrence(s: string, t: string, i: int)
    requires OccursAt(s, t, i)
    ensures Contains(s, t)
    decreases i
  {
    if i > 0 {
      assert s[1..][i - 1..i - 1 + |t|] == s[i..i + |t|];
      ContainsFromOccurrence(s[1..], t, i - 1);
    }
  }

  lemma {:induction false} OccurrenceFromContains(s: string, t: string) returns (i: int)
    requires Contains(s, t)
    ensures OccursAt(s, t, i)
    decreases |s|
  {
    if s[..|t|] == t {
      i := 0;
    } else {
      var j := OccurrenceFromContains(s[1..], t);
      assert s[j + 1..j + 1 + |t|] == s[1..][j..j + |t|];
      i := j + 1;
    }
  }

  lemma ContainsIff(s: string, t: string)
    ensures Contains(s, t) <==> exists i :: OccursAt(s, t, i)
  {
    if Contains(s, t) {
      var i := OccurrenceFromContains(s, t);
    }
    if exists i :: OccursAt(s, t, i) {
      var i :| OccursAt(s, t, i);
      ContainsFromOccurrence(s, t, i);
    }
  }

  /** The empty string is contained in every string. */
  lemma ContainsEmpty(s: string)
    ensures Contains(s, [])
  {
  }

  /** Every slice of `s` is contained in `s`. */
  lemma ContainsSlice(s: string, i: nat, j: nat)
    requires i <= j <= |s|
    ensures Contains(s, s[i..j])
  {
    ContainsFromOccurrence(s, s[i..j], i);
  }

  /** Text around a string keeps what it contains. */
  lemma ContainsExtends(a: string, s: string, b: string, t: string)
    requires Contains(s, t)
    ensures Contains(a + s + b, t)
  {
    var i := OccurrenceFromContains(s, t);
    var l := a + s + b;
    assert l[|a| + i..|a| + i + |t|] == s[i..i + |t|];
    ContainsFromOccurrence(l, t, |a| + i);
  }

  /** `s.trim()` is found inside `s`. */
  lemma ContainsTrim(s: string)
    ensures Contains(s, Trim(s))
  {
    TrimSpec(s);
    var r := Trim(s);
    var k :| OccursAt(s, r, k);
    ContainsFromOccurrence(s, r, k);
  }

  /** The order of JavaScript's `a < b` on strings (and of the default
      `Array.prototype.sort`): the first differing character decides, and a
      proper prefix comes first. Characters compare by code point. */
  predicate LexLess(a: string, b: string)
    decreases |a|
  {
    if a == [] then b != []
    else if b == [] then false
    else if a[0] != b[0] then a[0] < b[0]
    else LexLess(a[1..], b[1..])
  }

  lemma {:induction false} LexLessIrreflexive(a: string)
    ensures !LexLess(a, a)
    decreases |a|
  {
    if a != [] {
      LexLessIrreflexive(a[1..]);
    }
  }

  lemma {:induction false} LexLessTransitive(a: string, b: string, c: string)
    requires LexLess(a, b) && LexLess(b, c)
    ensures LexLess(a, c)
    decreases |a|
  {
    if a != [] && b != [] && c != [] && a[0] == b[0] && b[0] == c[0] {
      LexLessTransitive(a[1..], b[1..], c[1..]);
    }
  }

  lemma {:induction false} LexLessTotal(a: string, b: string)
    requires a != b
    ensures LexLess(a, b) || LexLess(b, a)
    decreases |a|
  {
    if a != [] && b != [] && a[0] == b[0] {
      assert a == [a[0]] + a[1..] && b == [b[0]] + b[1..];
      LexLessTotal(a[1..], b[1..]);
    }
  }

  function DigitChar(d: nat): (c: char)
    requires d < 10
    ensures '0' <= c <= '9'
  {
    ('0' as int + d) as char
  }

  /** The decimal rendering of `n` (what JavaScript's `String(n)` gives for a
      non-negative integer). */
  function NatToString(n: nat): (r: string)
    ensures r != []
    ensures forall i :: 0 <= i < |r| ==> '0' <= r[i] <= '9'
  {
    if n < 10 then [DigitChar(n)] else NatToString(n / 10) + [DigitChar(n % 10)]
  }

  /** Reads a string of decimal digits back as a number. */
  function DecimalValue(s: string): nat
    requires forall i :: 0 <= i < |s| ==> '0' <= s[i] <= '9'
  {
    if s == [] then 0 else 10 * DecimalValue(s[..|s| - 1]) + (s[|s| - 1] as int - '0' as int)
  }

  lemma {:induction false} DecimalRoundTrip(n: nat)
    ensures DecimalValue(NatToString(n)) == n
  {
    if n >= 10 {
      var r := NatToString(n);
      assert r[..|r| - 1] == NatToString(n / 10);
      DecimalRoundTrip(n / 10);
    }
  }

  lemma NatToStringInjective(m: nat, n: nat)
    requires NatToString(m) == NatToString(n)
    ensures m == n
  {
    DecimalRoundTrip(m);
    DecimalRoundTrip(n);
  }
}
