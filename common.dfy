/** Shared vocabulary of the model: optional values and results, a JSON value,
    JavaScript's number-to-integer helpers and the decimal rendering of numbers. */
module Common {

  datatype Option<T> = None | Some(value: T)

  datatype Result<T, E> = Success(value: T) | Failure(error: E)

  /** A JSON value as it crosses the wire between server and client
      (numbers are exact reals: the model has no floating point). */
  datatype Json =
    | JNull
    | JBool(b: bool)
    | JNum(n: real)
    | JStr(s: string)
    | JArr(items: seq<Json>)
    | JObj(fields: map<string, Json>)

  /** JavaScript truthiness of a JSON value (NaN is not modelled). */
  predicate Truthy(j: Json)
  {
    match j
    case JNull => false
    case JBool(b) => b
    case JNum(n) => n != 0.0
    case JStr(s) => s != ""
    case JArr(_) => true
    case JObj(_) => true
  }

  function Min(a: int, b: int): int { if a <= b then a else b }
  function Max(a: int, b: int): int { if a >= b then a else b }

  /** `Math.max(lo, Math.min(hi, x))`, the clamp every scoring formula ends with. */
  function Clamp(lo: int, hi: int, x: int): (r: int)
    ensures lo <= r
    ensures lo <= hi ==> r <= hi
    ensures lo <= x <= hi ==> r == x
    ensures x < lo ==> r == lo
    ensures lo <= hi < x ==> r == hi
  {
    Max(lo, Min(hi, x))
  }

  /** `Math.floor` on an exact number. */
  function Floor(x: real): (r: int)
    ensures r as real <= x < r as real + 1.0
  {
    x.Floor
  }

  /** `Math.floor` never decreases. */
  lemma FloorMonotone(a: real, b: real)
    requires a <= b
    ensures Floor(a) <= Floor(b)
  {
  }

  /** `Math.ceil` on an exact number. */
  function Ceil(x: real): (r: int)
    ensures x <= r as real < x + 1.0
  {
    -((-x).Floor)
  }

  // ---------------------------------------------------------------------------
  // Decimal rendering of integers (`String(n)` and `'...' + n` in JavaScript)
  // ---------------------------------------------------------------------------

  predicate IsDigit(ch: char) { '0' <= ch <= '9' }

  function DigitChar(d: nat): (ch: char)
    requires d < 10
    ensures IsDigit(ch) && ch as int - '0' as int == d
  {
    ['0', '1', '2', '3', '4', '5', '6', '7', '8', '9'][d]
  }

  /** The decimal digits of `n`, most significant first, without leading zeros. */
  function NatToString(n: nat): (s: string)
    ensures |s| > 0
    ensures forall i :: 0 <= i < |s| ==> IsDigit(s[i])
    ensures n > 0 <==> s[0] != '0'
  {
    if n < 10 then [DigitChar(n)] else NatToString(n / 10) + [DigitChar(n % 10)]
  }

  /** The value of a string of decimal digits. */
  function DigitsValue(s: string): nat
    requires forall i :: 0 <= i < |s| ==> IsDigit(s[i])
  {
    if s == [] then 0 else 10 * DigitsValue(s[..|s| - 1]) + DigitValue(s[|s| - 1])
  }

  function DigitValue(ch: char): (d: nat)
    requires IsDigit(ch)
    ensures d < 10
  {
    ch as int - '0' as int
  }

  /** Rendering a number and reading it back gives the number. */
  lemma {:induction false} NatToStringRoundTrip(n: nat)
    ensures DigitsValue(NatToString(n)) == n
  {
    var s := NatToString(n);
    if n >= 10 {
      NatToStringRoundTrip(n / 10);
      assert s[..|s| - 1] == NatToString(n / 10);
    }
  }

  /** Distinct numbers render as distinct strings. */
  lemma NatToStringInjective(m: nat, n: nat)
    requires NatToString(m) == NatToString(n)
    ensures m == n
  {
    NatToStringRoundTrip(m);
    NatToStringRoundTrip(n);
  }

  /** `String(i)` for an integer. */
  function IntToString(i: int): (s: string)
    ensures i >= 0 ==> s == NatToString(i)
    ensures i < 0 ==> s == "-" + NatToString(-i)
    ensures forall k :: 0 <= k < |s| ==> s[k] == '-' || IsDigit(s[k])
  {
    if i < 0 then "-" + NatToString(-i) else NatToString(i)
  }

  /** Distinct integers render as distinct strings. */
  lemma IntToStringInjective(i: int, j: int)
    requires IntToString(i) == IntToString(j)
    ensures i == j
  {
    ParseIntRoundTrip(i);
    ParseIntRoundTrip(j);
  }

  /** The length of the longest prefix of `s` made of decimal digits. */
  function DigitPrefixLength(s: string): (n: nat)
    ensures n <= |s|
    ensures forall i :: 0 <= i < n ==> IsDigit(s[i])
    ensures n < |s| ==> !IsDigit(s[n])
  {
    if s == [] || !IsDigit(s[0]) then 0 else 1 + DigitPrefixLength(s[1..])
  }

  /** Whitespace that `parseInt` skips before the number. */
  predicate IsSpace(ch: char)
  {
    ch == ' ' || ch == '\t' || ch == '\n' || ch == '\r'
  }

  /** `s` without its leading whitespace. */
  function TrimStart(s: string): (t: string)
    ensures t != [] ==> !IsSpace(t[0])
  {
    if s != [] && IsSpace(s[0]) then TrimStart(s[1..]) else s
  }

  /** `parseInt(s, 10)`: optional whitespace and sign, then the longest run of
      digits; `None` stands for `NaN` (no digit at all). */
  function ParseInt(s: string): Option<int>
  {
    ParseSigned(TrimStart(s))
  }

  /** An optional sign, then a run of digits. */
  function ParseSigned(t: string): Option<int>
  {
    if |t| > 0 && t[0] == '-' then
      match ParseDigitRun(t[1..])
      case None => None
      case Some(v) => Some(-v)
    else if |t| > 0 && t[0] == '+' then ParseDigitRun(t[1..])
    else ParseDigitRun(t)
  }

  /** The value of the leading run of digits, if there is one. */
  function ParseDigitRun(b: string): Option<int>
  {
    var n := DigitPrefixLength(b);
    if n == 0 then None else Some(DigitsValue(b[..n]))
  }

  /** Reading back the decimal form of an integer gives the integer. */
  lemma ParseIntRoundTrip(i: int)
    ensures ParseInt(IntToString(i)) == Some(i)
  {
    if i < 0 {
      ParseNegativeRoundTrip(i);
    } else {
      ParseNatRoundTrip(i);
    }
  }

  lemma ParseNegativeRoundTrip(i: int)
    requires i < 0
    ensures ParseInt(IntToString(i)) == Some(i)
  {
    var n: nat := -i;
    var d := NatToString(n);
    assert IntToString(i) == "-" + d;
    NatToStringRoundTrip(n);
    ParseMinusDigits(d);
  }

  lemma ParseNatRoundTrip(n: nat)
    ensures ParseInt(IntToString(n)) == Some(n)
  {
    var d := NatToString(n);
    assert IntToString(n) == d;
    NatToStringRoundTrip(n);
    ParsePlainDigits(d);
  }

  lemma ParsePlainDigits(d: string)
    requires |d| > 0 && forall i :: 0 <= i < |d| ==> IsDigit(d[i])
    ensures ParseInt(d) == Some(DigitsValue(d) as int)
  {
    DigitRunOfDigits(d);
    assert !IsSpace(d[0]) && d[0] != '-' && d[0] != '+';
    assert TrimStart(d) == d;
  }

  lemma ParseMinusDigits(d: string)
    requires |d| > 0 && forall i :: 0 <= i < |d| ==> IsDigit(d[i])
    ensures ParseInt("-" + d) == Some(-(DigitsValue(d) as int))
  {
    DigitRunOfDigits(d);
    ParseMinusRun(d);
  }

  /** A minus sign negates the run of digits after it. */
  lemma ParseMinusRun(d: string)
    ensures ParseInt("-" + d) == match ParseDigitRun(d) case None => None case Some(v) => Some(-v)
  {
    var s := "-" + d;
    assert s[0] == '-' && s[1..] == d;
    assert TrimStart(s) == s;
  }

  /** A non-empty run of digits reads as its value. */
  lemma DigitRunOfDigits(d: string)
    requires |d| > 0 && forall i :: 0 <= i < |d| ==> IsDigit(d[i])
    ensures ParseDigitRun(d) == Some(DigitsValue(d) as int)
  {
    AllDigitsPrefix(d);
    assert d[..|d|] == d;
  }

  /** A string of digits is its own digit prefix. */
  lemma {:induction false} AllDigitsPrefix(s: string)
    requires forall i :: 0 <= i < |s| ==> IsDigit(s[i])
    ensures DigitPrefixLength(s) == |s|
  {
    if s != [] {
      AllDigitsPrefix(s[1..]);
    }
  }

  // ---------------------------------------------------------------------------
  // Substrings (`s.indexOf(sub) >= 0`)
  // ---------------------------------------------------------------------------

  predicate HasSubstring(s: string, sub: string)
    decreases |s|
  {
    sub <= s || (|s| > 0 && HasSubstring(s[1..], sub))
  }

  /** `sub` occurs in `s` starting at position `i`. */
  predicate OccursAt(s: string, sub: string, i: int)
  {
    0 <= i && i + |sub| <= |s| && s[i..i + |sub|] == sub
  }

  /** `HasSubstring` holds exactly when `sub` occurs at some position of `s`. */
  lemma {:induction false} HasSubstringIff(s: string, sub: string)
    ensures HasSubstring(s, sub) <==> exists i :: OccursAt(s, sub, i)
    decreases |s|
  {
    OccursAtStart(s, sub);
    if !(sub <= s) && |s| > 0 {
      HasSubstringIff(s[1..], sub);
      if HasSubstring(s, sub) {
        var i :| OccursAt(s[1..], sub, i);
        OccursAtShift(s, sub, i);
      }
      if exists i :: OccursAt(s, sub, i) {
        var i :| OccursAt(s, sub, i);
        OccursAtShift(s, sub, i - 1);
      }
    }
  }

  lemma OccursAtStart(s: string, sub: string)
    ensures OccursAt(s, sub, 0) <==> sub <= s
  {
    if |sub| <= |s| {
      assert s[0..|sub|] == s[..|sub|];
    }
  }

  /** An occurrence in the tail is an occurrence one position later. */
  lemma OccursAtShift(s: string, sub: string, i: int)
    requires |s| > 0 && 0 <= i
    ensures OccursAt(s[1..], sub, i) <==> OccursAt(s, sub, i + 1)
  {
    if i + 1 + |sub| <= |s| {
      assert s[1..][i..i + |sub|] == s[i + 1..i + 1 + |sub|];
    }
  }

  // ---------------------------------------------------------------------------
  // Sequences without repeated elements
  // ---------------------------------------------------------------------------

  predicate NoDup<T(==)>(s: seq<T>)
  {
    forall i, j :: 0 <= i < j < |s| ==> s[i] != s[j]
  }

  function Elements<T>(s: seq<T>): set<T>
  {
    set x | x in s
  }

  /** A sequence without repetitions has as many elements as its set. */
  lemma {:induction false} NoDupCardinality<T>(s: seq<T>)
    requires NoDup(s)
    ensures |Elements(s)| == |s|
  {
    if s != [] {
      var t := s[1..];
      assert NoDup(t);
      NoDupCardinality(t);
      assert Elements(s) == Elements(t) + {s[0]};
      assert s[0] !in Elements(t);
    }
  }

  /** The set of a sequence is never larger than the sequence. */
  lemma {:induction false} ElementsCardinality<T>(s: seq<T>)
    ensures |Elements(s)| <= |s|
  {
    if s != [] {
      var t := s[1..];
      ElementsCardinality(t);
      assert Elements(s) == Elements(t) + {s[0]};
    }
  }

  /** A subset is never larger than its superset. */
  lemma {:induction false} SubsetCardinality<T>(a: set<T>, b: set<T>)
    requires a <= b
    ensures |a| <= |b|
    decreases b
  {
    if a != {} {
      var x :| x in a;
      SubsetCardinality(a - {x}, b - {x});
    }
  }
}
