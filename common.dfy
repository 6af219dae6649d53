/** Shared vocabulary: Java's null as Option, strings as seq<char>, and the
    small string operations (substring, ASCII case, Java blank tests,
    decimal printing) that the services and agents rely on. */
module Common {

  datatype Option<+T> = None | Some(value: T)

  /** A call that returns normally or throws. */
  datatype Result<+T, +E> = Success(value: T) | Failure(error: E)

  /** A point on the clock (LocalDateTime.now() or System.currentTimeMillis()),
      passed in explicitly; larger is later. */
  type Instant = int

  const MillisPerDay: int := 86_400_000

  /** Java `int` range and two's-complement wrap-around. */
  const IntMin: int := -0x8000_0000
  const IntMax: int := 0x7fff_ffff

  predicate IsJavaInt(x: int) { IntMin <= x <= IntMax }

  function WrapInt(x: int): (r: int)
    ensures IsJavaInt(r)
    ensures (r - x) % 0x1_0000_0000 == 0
    ensures IsJavaInt(x) ==> r == x
  {
    var m := (x - IntMin) % 0x1_0000_0000;
    m + IntMin
  }

  // ---------------------------------------------------------------------
  // Substrings (Python `in`, Java `contains`, `endsWith`, SQL LIKE %t%)

  predicate IsPrefix(p: string, s: string) {
    |p| <= |s| && s[..|p|] == p
  }

  predicate IsSuffix(p: string, s: string) {
    |p| <= |s| && s[|s| - |p|..] == p
  }

  /** `sub` occurs in `s` starting at index i. */
  predicate OccursAt(s: string, sub: string, i: int) {
    0 <= i && i + |sub| <= |s| && s[i..i + |sub|] == sub
  }

  /** Substring test, computed by scanning from the left. */
  predicate Contains(s: string, sub: string)
    decreases |s|
  {
    |sub| <= |s| && (IsPrefix(sub, s) || (|s| > 0 && Contains(s[1..], sub)))
  }

  lemma {:induction false} ContainsIffOccurs(s: string, sub: string)
    ensures Contains(s, sub) <==> exists i :: OccursAt(s, sub, i)
    decreases |s|
  {
    if Contains(s, sub) {
      if IsPrefix(sub, s) {
        assert OccursAt(s, sub, 0);
      } else {
        ContainsIffOccurs(s[1..], sub);
        var j :| OccursAt(s[1..], sub, j);
        assert s[1..][j..j + |sub|] == s[j + 1..j + 1 + |sub|];
        assert OccursAt(s, sub, j + 1);
      }
    }
    if exists i :: OccursAt(s, sub, i) {
      var i :| OccursAt(s, sub, i);
      if i == 0 {
        assert IsPrefix(sub, s);
      } else {
        assert s[1..][i - 1..i - 1 + |sub|] == s[i..i + |sub|];
        assert OccursAt(s[1..], sub, i - 1);
        ContainsIffOccurs(s[1..], sub);
      }
    }
  }

  lemma OccursContains(s: string, sub: string, i: int)
    requires OccursAt(s, sub, i)
    ensures Contains(s, sub)
  {
    ContainsIffOccurs(s, sub);
  }

  /** Containment is transitive. */
  lemma ContainsTransitive(s: string, mid: string, sub: string)
    requires Contains(s, mid) && Contains(mid, sub)
    ensures Contains(s, sub)
  {
    ContainsIffOccurs(s, mid);
    ContainsIffOccurs(mid, sub);
    var i :| OccursAt(s, mid, i);
    var j :| OccursAt(mid, sub, j);
    forall k | 0 <= k < |sub| ensures s[i + j + k] == sub[k] {
      assert sub[k] == mid[j + k];
      assert mid[j + k] == s[i..i + |mid|][j + k];
    }
    assert s[i + j..i + j + |sub|] == sub;
    OccursContains(s, sub, i + j);
  }

  /** A suffix is contained. */
  lemma SuffixContained(s: string, p: string)
    requires IsSuffix(p, s)
    ensures Contains(s, p)
  {
    OccursContains(s, p, |s| - |p|);
  }

  /** A string that lacks the first character of `sub` does not contain it. */
  lemma MissingFirstCharNotContained(s: string, sub: string)
    requires |sub| > 0 && forall k :: 0 <= k < |s| ==> s[k] != sub[0]
    ensures !Contains(s, sub)
  {
    ContainsIffOccurs(s, sub);
  }

  // ---------------------------------------------------------------------
  // ASCII case mapping (str.upper / str.lower / String.toUpperCase)

  function UpperChar(c: char): char {
    if 'a' <= c <= 'z' then (c as int - 32) as char else c
  }

  function LowerChar(c: char): char {
    if 'A' <= c <= 'Z' then (c as int + 32) as char else c
  }

  function Upper(s: string): (r: string)
    ensures |r| == |s|
    ensures forall i :: 0 <= i < |s| ==> r[i] == UpperChar(s[i])
  {
    seq(|s|, i requires 0 <= i < |s| => UpperChar(s[i]))
  }

  function Lower(s: string): (r: string)
    ensures |r| == |s|
    ensures forall i :: 0 <= i < |s| ==> r[i] == LowerChar(s[i])
  {
    seq(|s|, i requires 0 <= i < |s| => LowerChar(s[i]))
  }

  predicate IsUpperCase(s: string) {
    forall i :: 0 <= i < |s| ==> UpperChar(s[i]) == s[i]
  }

  lemma UpperAppend(s: string, t: string)
    ensures Upper(s + t) == Upper(s) + Upper(t)
  {
    assert forall k :: 0 <= k < |s + t| ==> Upper(s + t)[k] == (Upper(s) + Upper(t))[k];
  }

  lemma UpperIsUpperCase(s: string)
    ensures IsUpperCase(Upper(s))
    ensures Upper(Upper(s)) == Upper(s)
  {
  }

  lemma UpperOfUpperCase(s: string)
    requires IsUpperCase(s)
    ensures Upper(s) == s
  {
  }

  // ---------------------------------------------------------------------
  // Java blank tests

  /** `s.trim().isEmpty()`: trim removes every char <= U+0020 at both ends. */
  predicate TrimIsEmpty(s: string) {
    forall i :: 0 <= i < |s| ==> s[i] <= ' '
  }

  /** Bean Validation's `@NotBlank`: non-null, and `trim()` leaves a char. */
  predicate NotBlank(s: Option<string>) {
    s.Some? && !TrimIsEmpty(s.value)
  }

  /** Character.isWhitespace, as used by Spring's StringUtils.hasText. */
  predicate JavaIsWhitespace(c: char) {
    || c == '\t' || c == '\n' || c == '\U{000B}' || c == '\U{000C}' || c == '\r'
    || ('\U{001C}' <= c <= '\U{001F}') || c == ' '
    || c == '\U{1680}' || ('\U{2000}' <= c <= '\U{2006}') || ('\U{2008}' <= c <= '\U{200A}')
    || c == '\U{2028}' || c == '\U{2029}' || c == '\U{205F}' || c == '\U{3000}'
  }

  /** StringUtils.hasText: non-null and at least one non-whitespace char. */
  predicate HasText(s: Option<string>) {
    s.Some? && exists i :: 0 <= i < |s.value| && !JavaIsWhitespace(s.value[i])
  }

  /** Python's `str.isspace`, the class `\s` matches in a `str` pattern. */
  predicate PyIsSpace(c: char) {
    || ('\t' <= c <= '\r') || ('\U{001C}' <= c <= '\U{001F}') || c == ' '
    || c == '\U{0085}' || c == '\U{00A0}' || c == '\U{1680}' || ('\U{2000}' <= c <= '\U{200A}')
    || c == '\U{2028}' || c == '\U{2029}' || c == '\U{202F}' || c == '\U{205F}' || c == '\U{3000}'
  }

  /** Index of the first occurrence of c in s, or |s| when there is none. */
  function FirstIndexOf(s: string, c: char): (r: nat)
    ensures r <= |s|
    ensures forall k :: 0 <= k < r ==> s[k] != c
    ensures r < |s| ==> s[r] == c
  {
    if |s| == 0 then 0 else if s[0] == c then 0 else 1 + FirstIndexOf(s[1..], c)
  }

  // ---------------------------------------------------------------------
  // Decimal printing (Python str(int), Java string concatenation of a long)

  function DigitChar(d: int): char
    requires 0 <= d < 10
  {
    ('0' as int + d) as char
  }

  function NatToString(n: nat): (r: string)
    ensures |r| > 0
    ensures forall i :: 0 <= i < |r| ==> '0' <= r[i] <= '9'
    decreases n
  {
    if n < 10 then [DigitChar(n)] else NatToString(n / 10) + [DigitChar(n % 10)]
  }

  /** Decimal rendering of any integer, with a leading '-' when negative. */
  function IntToString(n: int): string {
    if n < 0 then "-" + NatToString(-n) else NatToString(n)
  }

  // ---------------------------------------------------------------------
  // ORDER BY on text: lexicographic order by character code

  predicate LexLe(a: string, b: string)
    decreases |a|
  {
    |a| == 0 || (|b| > 0 && (a[0] < b[0] || (a[0] == b[0] && LexLe(a[1..], b[1..]))))
  }

  lemma {:induction false} LexLeTotal(a: string, b: string)
    ensures LexLe(a, b) || LexLe(b, a)
    decreases |a|
  {
    if |a| > 0 && |b| > 0 && a[0] == b[0] {
      LexLeTotal(a[1..], b[1..]);
    }
  }

  lemma {:induction false} LexLeAntisymmetric(a: string, b: string)
    requires LexLe(a, b) && LexLe(b, a)
    ensures a == b
    decreases |a|
  {
    if |a| > 0 {
      LexLeAntisymmetric(a[1..], b[1..]);
      assert a == [a[0]] + a[1..] && b == [b[0]] + b[1..];
    }
  }

  lemma {:induction false} LexLeTransitive(a: string, b: string, c: string)
    requires LexLe(a, b) && LexLe(b, c)
    ensures LexLe(a, c)
    decreases |a|
  {
    if |a| > 0 && a[0] == b[0] && b[0] == c[0] {
      LexLeTransitive(a[1..], b[1..], c[1..]);
    }
  }

  /** The least string of a finite non-empty set. */
  ghost function MinString(s: set<string>): (m: string)
    requires s != {}
    ensures m in s
    ensures forall y :: y in s ==> LexLe(m, y)
    decreases |s|
  {
    var x :| x in s;
    if s == {x} then
      LexLeTotal(x, x);
      x
    else
      var m := MinString(s - {x});
      LessOfTwo(x, m, s);
      if LexLe(x, m) then x else m
  }

  /** The lesser of x and the least element of the rest is the least of s. */
  lemma LessOfTwo(x: string, m: string, s: set<string>)
    requires x in s && forall y :: y in s - {x} ==> LexLe(m, y)
    ensures forall y :: y in s ==> LexLe(if LexLe(x, m) then x else m, y)
  {
    LexLeTotal(x, x);
    LexLeTotal(x, m);
    forall y | y in s ensures LexLe(if LexLe(x, m) then x else m, y) {
      if y != x && LexLe(x, m) {
        LexLeTransitive(x, m, y);
      }
    }
  }

  /** A sequence in strictly ascending order, hence without duplicates. */
  predicate StrictlyAscending(r: seq<string>) {
    forall i, j :: 0 <= i < j < |r| ==> LexLe(r[i], r[j]) && r[i] != r[j]
  }

  /** `SELECT DISTINCT … ORDER BY`: the strings of s, each once, ascending. */
  ghost function SortedDistinct(s: set<string>): (r: seq<string>)
    ensures forall x :: x in s <==> x in r
    ensures |r| == |s|
    ensures StrictlyAscending(r)
    decreases |s|
  {
    if s == {} then []
    else
      var m := MinString(s);
      var rest := SortedDistinct(s - {m});
      PrependLeast(m, rest, s);
      [m] + rest
  }

  lemma PrependLeast(m: string, rest: seq<string>, s: set<string>)
    requires m in s && forall y :: y in s ==> LexLe(m, y)
    requires forall x :: x in s - {m} <==> x in rest
    requires StrictlyAscending(rest)
    ensures StrictlyAscending([m] + rest)
    ensures forall x :: x in s <==> x in [m] + rest
  {
    var r := [m] + rest;
    forall i, j | 0 <= i < j < |r| ensures LexLe(r[i], r[j]) && r[i] != r[j] {
      if i == 0 {
        assert r[j] == rest[j - 1];
        assert rest[j - 1] in rest;
      } else {
        assert r[i] == rest[i - 1] && r[j] == rest[j - 1];
      }
    }
  }

  /** A set without elements is the empty set. */
  lemma EmptyWithoutElements(s: set<int>)
    ensures (forall x :: x !in s) ==> s == {}
  {
    if forall x :: x !in s {
      assert s == {};
    }
  }

  lemma NonEmptyHasElement(s: set<int>)
    requires s != {}
    ensures exists x :: x in s
  {
    EmptyWithoutElements(s);
  }
}
