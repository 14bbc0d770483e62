/** The JavaScript string and number conversions the controllers rely on:
    `String.prototype.trim`, `parseInt` without a radix, `Number(...)`,
    `String(...)`, truthiness, and the decimal rendering of integers used in
    template literals. Numbers are exact reals: IEEE-754 rounding is not
    modelled. */
module JsText {
  import opened Seqs
  import opened Sorting

  /** ECMAScript WhiteSpace and LineTerminator code points: what `trim`,
      `parseInt` and `Number` skip. */
  predicate IsJsSpace(c: char)
  {
    || c == '\t' || c == '\n' || c == '\U{B}' || c == '\U{C}' || c == '\r' || c == ' '
    || c == '\U{A0}' || c == '\U{1680}' || ('\U{2000}' <= c <= '\U{200A}')
    || c == '\U{2028}' || c == '\U{2029}' || c == '\U{202F}' || c == '\U{205F}'
    || c == '\U{3000}' || c == '\U{FEFF}'
  }

  predicate AllSpace(s: string)
  {
    forall i :: 0 <= i < |s| ==> IsJsSpace(s[i])
  }

  /** Drops leading white space. */
  function TrimStart(s: string): (r: string)
    ensures |r| <= |s| && r == s[|s| - |r|..]
    ensures r == [] || !IsJsSpace(r[0])
    ensures AllSpace(s[..|s| - |r|])
    decreases |s|
  {
    if s != [] && IsJsSpace(s[0]) then
      var r := TrimStart(s[1..]);
      TrimStartStep(s, r);
      r
    else s
  }

  lemma TrimStartStep(s: string, r: string)
    requires s != [] && IsJsSpace(s[0])
    requires |r| <= |s[1..]| && r == s[1..][|s[1..]| - |r|..]
    requires AllSpace(s[1..][..|s[1..]| - |r|])
    ensures |r| <= |s| && r == s[|s| - |r|..]
    ensures AllSpace(s[..|s| - |r|])
  {
    var n := |s| - |r|;
    assert s[1..][n - 1..] == s[n..];
    assert s[..n] == [s[0]] + s[1..][..n - 1];
    var p := s[1..][..n - 1];
    forall i | 0 <= i < n ensures IsJsSpace(s[..n][i]) {
      if i > 0 {
        assert s[..n][i] == p[i - 1];
      }
    }
  }

  /** Drops trailing white space. */
  function TrimEnd(s: string): (r: string)
    ensures |r| <= |s| && r == s[..|r|]
    ensures r == [] || !IsJsSpace(r[|r| - 1])
    ensures AllSpace(s[|r|..])
    decreases |s|
  {
    if s != [] && IsJsSpace(s[|s| - 1]) then
      var p := s[..|s| - 1];
      var r := TrimEnd(p);
      assert p[..|r|] == s[..|r|];
      assert s[|r|..] == p[|r|..] + [s[|s| - 1]];
      r
    else s
  }

  /** `s.trim()`: white space removed at both ends; the result is empty
      exactly when `s` is all white space. */
  function Trim(s: string): (r: string)
    ensures |r| <= |s|
    ensures r == [] || (!IsJsSpace(r[0]) && !IsJsSpace(r[|r| - 1]))
    ensures r == [] <==> AllSpace(s)
  {
    var t := TrimStart(s);
    var r := TrimEnd(t);
    TrimSpaces(s, t, r);
    TrimEnds(s, t, r);
    r
  }

  lemma TrimEnds(s: string, t: string, r: string)
    requires t == TrimStart(s) && r == TrimEnd(t)
    ensures |r| <= |s|
    ensures r == [] || (!IsJsSpace(r[0]) && !IsJsSpace(r[|r| - 1]))
  {
    if r != [] {
      assert r[0] == t[..|r|][0] == t[0];
    }
  }

  lemma TrimSpaces(s: string, t: string, r: string)
    requires t == TrimStart(s) && r == TrimEnd(t)
    ensures r == [] <==> AllSpace(s)
  {
    var k := |s| - |t|;
    if r == [] {
      assert t[|r|..] == t;
      assert t == [];
      assert s[..k] == s;
    } else {
      assert s[k] == t[0] == r[0];
    }
  }

  predicate IsDigit(c: char) { '0' <= c <= '9' }

  predicate AllDigits(s: string) { forall i :: 0 <= i < |s| ==> IsDigit(s[i]) }

  /** `String(s).replace(/[^0-9]/g, '')`: the decimal digits of `s`, in order. */
  function DigitsOnly(s: string): (r: string)
    ensures AllDigits(r)
    ensures forall c :: c in r <==> c in s && IsDigit(c)
  {
    Filter(s, IsDigit)
  }

  /** The value of `c` as a digit in base `radix` (2, 8, 10 or 16), if it is one. */
  function RadixDigit(c: char, radix: nat): Option<nat>
  {
    if '0' <= c <= '9' && (c as int) - ('0' as int) < radix then Some((c as int) - ('0' as int))
    else if radix == 16 && 'a' <= c <= 'f' then Some((c as int) - ('a' as int) + 10)
    else if radix == 16 && 'A' <= c <= 'F' then Some((c as int) - ('A' as int) + 10)
    else None
  }

  predicate AllRadixDigits(s: string, radix: nat)
  {
    forall i :: 0 <= i < |s| ==> RadixDigit(s[i], radix).Some?
  }

  /** The longest prefix of `s` made of base-`radix` digits. */
  function DigitPrefix(s: string, radix: nat): (r: string)
    ensures |r| <= |s| && r == s[..|r|]
    ensures AllRadixDigits(r, radix)
    ensures |r| < |s| ==> RadixDigit(s[|r|], radix).None?
    decreases |s|
  {
    if s != [] && RadixDigit(s[0], radix).Some? then [s[0]] + DigitPrefix(s[1..], radix) else []
  }

  /** The number written by the digit string `z` in base `radix`. */
  function DigitsValue(z: string, radix: nat): nat
    requires AllRadixDigits(z, radix)
    decreases |z|
  {
    if z == [] then 0
    else DigitsValue(z[..|z| - 1], radix) * radix + RadixDigit(z[|z| - 1], radix).value
  }

  function DigitChar(d: nat): (c: char)
    requires d < 10
    ensures IsDigit(c) && RadixDigit(c, 10) == Some(d)
  {
    (('0' as int) + d) as char
  }

  /** The decimal numeral of `n`, as `String(n)` writes a safe integer. */
  function NatToString(n: nat): (r: string)
    ensures |r| >= 1 && AllDigits(r)
    decreases n
  {
    if n < 10 then [DigitChar(n)] else NatToString(n / 10) + [DigitChar(n % 10)]
  }

  /** `String(i)` / `${i}` for an integer. */
  function IntToString(i: int): (r: string)
    ensures |r| >= 1
    ensures forall k :: 1 <= k < |r| ==> IsDigit(r[k])
    ensures IsDigit(r[0]) || r[0] == '-'
  {
    if i < 0 then "-" + NatToString(-i) else NatToString(i)
  }

  lemma {:induction false} NatToStringValue(n: nat)
    ensures AllRadixDigits(NatToString(n), 10)
    ensures DigitsValue(NatToString(n), 10) == n
    decreases n
  {
    var r := NatToString(n);
    if n >= 10 {
      NatToStringValue(n / 10);
      assert r[..|r| - 1] == NatToString(n / 10);
    }
  }

  /** `parseInt(s)` (no radix): skip leading white space, take an optional
      sign, switch to base 16 after `0x`/`0X`, then read the longest digit
      prefix; no digits at all is NaN (`None`). */
  function ParseInt(s: string): Option<int>
  {
    var t := TrimStart(s);
    var neg := |t| > 0 && t[0] == '-';
    var u := if |t| > 0 && (t[0] == '-' || t[0] == '+') then t[1..] else t;
    ParseUnsignedPart(u, neg)
  }

  /** `parseInt` after the sign: an optional `0x` prefix, then digits. */
  function ParseUnsignedPart(u: string, neg: bool): Option<int>
  {
    var hex := |u| >= 2 && u[0] == '0' && (u[1] == 'x' || u[1] == 'X');
    var radix := if hex then 16 else 10;
    var z := DigitPrefix(if hex then u[2..] else u, radix);
    if z == [] then None
    else
      var v: int := DigitsValue(z, radix);
      Some(if neg then -v else v)
  }

  lemma AllDigitsPrefix(s: string)
    requires AllDigits(s)
    ensures DigitPrefix(s, 10) == s
  {
  }

  /** `parseInt` reads back what `String` writes for every integer. */
  lemma ParseIntRoundTrip(i: int)
    ensures ParseInt(IntToString(i)) == Some(i)
  {
    var n: nat := if i < 0 then -i else i;
    NatToStringValue(n);
    ParseNumeral(IntToString(i), NatToString(n), i < 0);
  }

  /** `parseInt` of an optionally negated decimal numeral. */
  lemma ParseNumeral(t: string, u: string, neg: bool)
    requires u != [] && AllDigits(u) && AllRadixDigits(u, 10)
    requires t == if neg then "-" + u else u
    ensures ParseInt(t) == Some(if neg then -(DigitsValue(u, 10) as int) else DigitsValue(u, 10))
  {
    AllDigitsPrefix(u);
    assert |u| >= 2 ==> IsDigit(u[1]);
    if neg {
      assert t[0] == '-' && t[1..] == u;
      ParseSigned(t, u);
    } else {
      ParseUnsigned(u);
    }
  }

  lemma ParseUnsigned(u: string)
    requires u != [] && AllDigits(u) && AllRadixDigits(u, 10)
    requires DigitPrefix(u, 10) == u && (|u| >= 2 ==> IsDigit(u[1]))
    ensures ParseInt(u) == Some(DigitsValue(u, 10) as int)
  {
    assert !IsJsSpace(u[0]);
    TrimStartNoSpace(u);
    DecimalPart(u, false);
  }

  lemma ParseSigned(t: string, u: string)
    requires u != [] && AllDigits(u) && AllRadixDigits(u, 10)
    requires DigitPrefix(u, 10) == u && (|u| >= 2 ==> IsDigit(u[1]))
    requires |t| >= 1 && t[0] == '-' && t[1..] == u
    ensures ParseInt(t) == Some(-(DigitsValue(u, 10) as int))
  {
    TrimStartNoSpace(t);
    DecimalPart(u, true);
  }

  /** Decimal digits after the sign are read as they are. */
  lemma DecimalPart(u: string, neg: bool)
    requires u != [] && AllDigits(u) && AllRadixDigits(u, 10)
    requires DigitPrefix(u, 10) == u && (|u| >= 2 ==> IsDigit(u[1]))
    ensures ParseUnsignedPart(u, neg) == Some(if neg then -(DigitsValue(u, 10) as int) else DigitsValue(u, 10))
  {
  }

  lemma TrimStartNoSpace(t: string)
    requires t != [] && !IsJsSpace(t[0])
    ensures TrimStart(t) == t
  {
  }

  /** The outcome of JavaScript's `Number(...)`. */
  datatype JsNumber = NaN | PosInf | NegInf | Finite(v: real)

  function Pow10(k: nat): (r: nat)
    ensures r >= 1
  {
    if k == 0 then 1 else 10 * Pow10(k - 1)
  }

  /** 10 raised to an integer power, as an exact real. */
  function Scale(e: int): real
  {
    if e >= 0 then Pow10(e) as real else 1.0 / (Pow10(-e) as real)
  }

  /** The exponent part `e`/`E`, optional sign, digits, of a decimal
      literal; the empty string stands for exponent 0. */
  function ExponentPart(r: string): Option<int>
  {
    if r == [] then Some(0)
    else if r[0] != 'e' && r[0] != 'E' then None
    else
      var neg := |r| > 1 && r[1] == '-';
      var d := if |r| > 1 && (r[1] == '-' || r[1] == '+') then r[2..] else r[1..];
      if d == [] || !AllDigits(d) then None
      else
        assert AllRadixDigits(d, 10);
        var v: int := DigitsValue(d, 10);
        Some(if neg then -v else v)
  }

  /** An unsigned StrDecimalLiteral other than `Infinity`: digits with an
      optional fraction and exponent, at least one digit before or after
      the point. */
  function UnsignedDecimal(u: string): Option<real>
  {
    var ip := DigitPrefix(u, 10);
    var r1 := u[|ip|..];
    var hasDot := r1 != [] && r1[0] == '.';
    var fp := if hasDot then DigitPrefix(r1[1..], 10) else [];
    var r2 := if hasDot then r1[1 + |fp|..] else r1;
    if ip == [] && fp == [] then None
    else match ExponentPart(r2)
      case None => None
      case Some(e) =>
        assert AllRadixDigits(ip + fp, 10);
        Some(DigitsValue(ip + fp, 10) as real * Scale(e - |fp|))
  }

  /** `Number(s)` for a string: white space around the literal is ignored,
      an empty or all-space string is 0, `0x`/`0o`/`0b` literals take no
      sign, and anything else that is not a decimal literal is NaN. */
  function StringToNumber(s: string): JsNumber
  {
    var t := Trim(s);
    if t == [] then Finite(0.0)
    else if IsRadixLiteral(t) then RadixLiteral(t)
    else SignedDecimal(t)
  }

  predicate IsRadixLiteral(t: string)
  {
    |t| >= 2 && t[0] == '0' && t[1] in "xXoObB"
  }

  /** A `0x`, `0o` or `0b` literal: at least one digit of its base. */
  function RadixLiteral(t: string): JsNumber
    requires IsRadixLiteral(t)
  {
    var radix := if t[1] in "xX" then 16 else if t[1] in "oO" then 8 else 2;
    var body := t[2..];
    if body != [] && AllRadixDigits(body, radix) then Finite(DigitsValue(body, radix) as real) else NaN
  }

  /** An optionally signed decimal literal or `Infinity`. */
  function SignedDecimal(t: string): JsNumber
    requires t != []
  {
    var neg := t[0] == '-';
    var u := if t[0] == '-' || t[0] == '+' then t[1..] else t;
    if u == "Infinity" then (if neg then NegInf else PosInf)
    else match UnsignedDecimal(u)
      case None => NaN
      case Some(x) => Finite(if neg then -x else x)
  }

  /** An all-space string converts to 0, never to NaN. */
  lemma BlankIsZero(s: string)
    requires AllSpace(s)
    ensures StringToNumber(s) == Finite(0.0)
  {
  }

  lemma UnsignedDigits(u: string)
    requires u != [] && AllDigits(u)
    ensures AllRadixDigits(u, 10)
    ensures UnsignedDecimal(u) == Some(DigitsValue(u, 10) as real)
  {
    AllDigitsPrefix(u);
    assert u[|u|..] == [];
    assert u + [] == u;
  }

  lemma TrimNumeral(r: string)
    requires r != [] && !IsJsSpace(r[0]) && !IsJsSpace(r[|r| - 1])
    ensures Trim(r) == r
  {
  }

  /** `Number` of an optionally negated decimal numeral with no space around it. */
  lemma NumeralToNumber(t: string, u: string, neg: bool)
    requires u != [] && AllDigits(u)
    requires t == if neg then "-" + u else u
    ensures AllRadixDigits(u, 10)
    ensures StringToNumber(t) == Finite(if neg then -(DigitsValue(u, 10) as real) else DigitsValue(u, 10) as real)
  {
    UnsignedDigits(u);
    TrimNumeral(t);
    NumeralNotRadix(t, u, neg);
    DecimalText(t);
    SignedNumeral(t, u, neg);
  }

  lemma NumeralNotRadix(t: string, u: string, neg: bool)
    requires u != [] && AllDigits(u)
    requires t == if neg then "-" + u else u
    ensures !IsRadixLiteral(t)
  {
    if |t| >= 2 && !neg { assert IsDigit(t[1]); }
  }

  lemma DecimalText(t: string)
    requires t != [] && Trim(t) == t && !IsRadixLiteral(t)
    ensures StringToNumber(t) == SignedDecimal(t)
  {
  }

  lemma SignedNumeral(t: string, u: string, neg: bool)
    requires u != [] && AllDigits(u)
    requires t == if neg then "-" + u else u
    requires UnsignedDecimal(u) == Some(DigitsValue(u, 10) as real)
    ensures SignedDecimal(t) == Finite(if neg then -(DigitsValue(u, 10) as real) else DigitsValue(u, 10) as real)
  {
    assert u != "Infinity" by { assert IsDigit(u[0]); }
    assert neg ==> t[1..] == u;
  }

  /** `Number` reads back what `String` writes for every integer. */
  lemma NumberRoundTrip(i: int)
    ensures StringToNumber(IntToString(i)) == Finite(i as real)
  {
    var n: nat := if i < 0 then -i else i;
    NatToStringValue(n);
    NumeralToNumber(IntToString(i), NatToString(n), i < 0);
  }

  /** The JSON scalars a request body can hold. A number carries the text
      `String(x)` gives for it, since number formatting is not modelled;
      `WellFormed` ties the two together. */
  datatype JsValue = Null | Bool(b: bool) | Num(x: real, text: string) | Str(s: string)

  ghost predicate WellFormed(v: JsValue)
  {
    v.Num? ==> StringToNumber(v.text) == Finite(v.x)
  }

  /** `Number(v)`. */
  function ToNumber(v: JsValue): JsNumber
  {
    match v
    case Null => Finite(0.0)
    case Bool(b) => Finite(if b then 1.0 else 0.0)
    case Num(x, _) => Finite(x)
    case Str(s) => StringToNumber(s)
  }

  /** `String(v)`. */
  function ToStr(v: JsValue): string
  {
    match v
    case Null => "null"
    case Bool(b) => if b then "true" else "false"
    case Num(_, text) => text
    case Str(s) => s
  }

  /** JavaScript truthiness (`!!v`); a JSON number is never NaN. */
  predicate Truthy(v: JsValue)
  {
    match v
    case Null => false
    case Bool(b) => b
    case Num(x, _) => x != 0.0
    case Str(s) => s != ""
  }

  // ---------------------------------------------------------------------
  // Keys built with template literals

  /** `${i}-${rest}`: the composite keys are built by prefixing one id and
      a dash at a time. */
  function DashCons(i: int, rest: string): string
  {
    IntToString(i) + "-" + rest
  }

  /** The text of an integer has a dash at most in front, so the first
      dash after the first character ends the leading id: the composite
      keys can be read back. */
  lemma DashConsInjective(a: int, x: string, b: int, y: string)
    requires DashCons(a, x) == DashCons(b, y)
    ensures a == b && x == y
  {
    var sa := IntToString(a);
    var sb := IntToString(b);
    var t := DashCons(a, x);
    if |sa| < |sb| {
      DashAfterId(a, x);
      assert false;
    } else if |sb| < |sa| {
      DashAfterId(b, y);
      assert false;
    }
    assert sa == t[..|sa|] == sb;
    ParseIntRoundTrip(a);
    ParseIntRoundTrip(b);
    assert x == t[|sa| + 1..] == y;
  }

  lemma DashAfterId(a: int, x: string)
    ensures DashCons(a, x)[|IntToString(a)|] == '-'
  {
  }

  lemma IntToStringInjective(a: int, b: int)
    requires IntToString(a) == IntToString(b)
    ensures a == b
  {
    ParseIntRoundTrip(a);
    ParseIntRoundTrip(b);
  }

  /** `${x}` for a nullable id: `null` prints as "null". */
  function KeyText(x: Option<int>): string
  {
    if x.Some? then IntToString(x.value) else "null"
  }

  lemma KeyTextInjective(a: Option<int>, b: Option<int>)
    requires KeyText(a) == KeyText(b)
    ensures a == b
  {
    if a.Some? && b.Some? {
      IntToStringInjective(a.value, b.value);
    }
  }

  /** `${a}_${b}`: the mandal and sakha keys of the admin reports. */
  function UnderscoreKey(a: Option<int>, b: Option<int>): string
  {
    KeyText(a) + "_" + KeyText(b)
  }

  lemma NoUnderscore(a: Option<int>)
    ensures forall k :: 0 <= k < |KeyText(a)| ==> KeyText(a)[k] != '_'
  {
  }

  /** The text of an id never contains `_`, so the first `_` of a key ends
      the first id: different pairs give different keys. */
  lemma UnderscoreKeyInjective(a1: Option<int>, b1: Option<int>, a2: Option<int>, b2: Option<int>)
    ensures UnderscoreKey(a1, b1) == UnderscoreKey(a2, b2) <==> a1 == a2 && b1 == b2
  {
    if UnderscoreKey(a1, b1) == UnderscoreKey(a2, b2) {
      var t := UnderscoreKey(a1, b1);
      var s1, s2 := KeyText(a1), KeyText(a2);
      NoUnderscore(a1);
      NoUnderscore(a2);
      assert t[|s1|] == '_' && t[|s2|] == '_';
      assert s1 == t[..|s1|] == s2;
      KeyTextInjective(a1, a2);
      assert KeyText(b1) == t[|s1| + 1..] == KeyText(b2);
      KeyTextInjective(b1, b2);
    }
  }

  // ---------------------------------------------------------------------
  // Object key order

  /** An integer-valued property key is an array index when it names an
      integer in [0, 2^32 - 2] (section 6.1.7 of ECMAScript). */
  predicate IsArrayIndex(n: int) { 0 <= n <= 0xFFFF_FFFE }

  predicate NotArrayIndex(n: int) { !IsArrayIndex(n) }

  /** The order in which `for...in` visits an object whose keys were set
      from the integers `keys`, first setting in this order: the array-index
      keys ascending, then the other keys in insertion order (section
      10.1.11.1 of ECMAScript, OrdinaryOwnPropertyKeys). */
  function ForInOrder(keys: seq<int>): (r: seq<int>)
    ensures multiset(r) == multiset(keys)
    ensures forall i, j :: 0 <= i < j < |r| && IsArrayIndex(r[j]) ==> IsArrayIndex(r[i]) && r[i] <= r[j]
    ensures Filter(r, NotArrayIndex) == Filter(keys, NotArrayIndex)
  {
    var sorted := Sort(Filter(keys, IsArrayIndex), IntLe);
    var rest := Filter(keys, NotArrayIndex);
    ForInOrderFacts(keys, sorted, rest);
    sorted + rest
  }

  /** `for...in` visits only keys the object has. */
  lemma ForInMember(keys: seq<int>, k: int)
    requires k in ForInOrder(keys)
    ensures k in keys
  {
    assert k in multiset(ForInOrder(keys));
  }

  lemma ForInOrderFacts(keys: seq<int>, sorted: seq<int>, rest: seq<int>)
    requires sorted == Sort(Filter(keys, IsArrayIndex), IntLe)
    requires rest == Filter(keys, NotArrayIndex)
    ensures multiset(sorted + rest) == multiset(keys)
    ensures var r := sorted + rest;
            forall i, j :: 0 <= i < j < |r| && IsArrayIndex(r[j]) ==> IsArrayIndex(r[i]) && r[i] <= r[j]
    ensures Filter(sorted + rest, NotArrayIndex) == rest
  {
    IntTotalOrder();
    FilterMultiset(keys, IsArrayIndex, NotArrayIndex);
    forall x | x in sorted ensures IsArrayIndex(x) {
      assert x in multiset(sorted);
    }
    FilterNone(sorted, NotArrayIndex);
    FilterAll(rest, NotArrayIndex);
    FilterAppend(sorted, rest, NotArrayIndex);
    IndexKeysFirst(sorted, rest);
  }

  /** Ascending index keys followed by other keys: every index key comes
      after index keys only, and after smaller ones. */
  lemma IndexKeysFirst(sorted: seq<int>, rest: seq<int>)
    requires SortedBy(sorted, IntLe)
    requires forall x :: x in sorted ==> IsArrayIndex(x)
    requires forall x :: x in rest ==> NotArrayIndex(x)
    ensures var r := sorted + rest;
            forall i, j :: 0 <= i < j < |r| && IsArrayIndex(r[j]) ==> IsArrayIndex(r[i]) && r[i] <= r[j]
  {
    var r := sorted + rest;
    assert forall k :: |sorted| <= k < |r| ==> r[k] in rest;
    assert forall k :: 0 <= k < |sorted| ==> r[k] == sorted[k];
  }

  /** Keys that are all array indices are visited in ascending order,
      whatever order they were set in. */
  lemma ForInAllIndices(keys: seq<int>)
    requires forall k :: k in keys ==> IsArrayIndex(k)
    ensures ForInOrder(keys) == Sort(keys, IntLe)
  {
    FilterAll(keys, IsArrayIndex);
    FilterNone(keys, NotArrayIndex);
  }

  /** Keys none of which is an array index are visited in insertion order. */
  lemma ForInNoIndices(keys: seq<int>)
    requires forall k :: k in keys ==> NotArrayIndex(k)
    ensures ForInOrder(keys) == keys
  {
    FilterNone(keys, IsArrayIndex);
    FilterAll(keys, NotArrayIndex);
  }
}
