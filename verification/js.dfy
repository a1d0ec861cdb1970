/**
 * The parts of the JavaScript runtime that the handlers lean on, stated
 * exactly: truthiness of optional values, the white-space set of `trim()`
 * and of the regular-expression class `\s`, ASCII case mapping, decimal
 * digits, `Number(...)` and `parseInt(..., 10)` on strings, `join`,
 * `split(" ")`, substring search and integer-to-string rendering.
 *
 * `undefined` and `null` are both modelled by `None`: every use in the
 * handlers (`!x`, `x ?? y`, `x || y`) treats them alike.
 */
module Js {

  datatype Option<+T> = None | Some(value: T)

  /**
   * A value of a parsed JSON request body (`Object` stands for arrays and
   * objects). Numbers are mathematical reals: JSON has no NaN or infinity.
   */
  datatype Value = Undefined | Null | Bool(b: bool) | Num(x: real) | Str(s: string) | Object

  /** `!!v`. */
  predicate TruthyValue(v: Value) {
    match v
    case Bool(b) => b
    case Num(x) => x != 0.0
    case Str(s) => s != ""
    case Object => true
    case _ => false
  }

  /** `!!s` for an optional string: only a present, non-empty string is truthy. */
  predicate Truthy(s: Option<string>) {
    s.Some? && s.value != ""
  }

  /** `!!n` for an optional integer: absent and 0 are falsy. */
  predicate TruthyInt(n: Option<int>) {
    n.Some? && n.value != 0
  }

  /** `a || b` on optional strings. */
  function OrElse(a: Option<string>, b: string): (r: string)
    ensures Truthy(a) ==> r == a.value
    ensures !Truthy(a) ==> r == b
  {
    if Truthy(a) then a.value else b
  }

  /** `a ?? b`: only an absent value falls back. */
  function Coalesce<T>(a: Option<T>, b: T): (r: T)
    ensures a.Some? ==> r == a.value
    ensures a.None? ==> r == b
  {
    if a.Some? then a.value else b
  }

  // ---------------------------------------------------------------------
  // White space, as removed by String.prototype.trim and matched by \s:
  // the ECMAScript WhiteSpace and LineTerminator code points.

  predicate IsSpace(c: char) {
    || c == ' ' || c == '\t' || c == '\n' || c == '\r' || c == '\U{B}' || c == '\U{C}'
    || c == '\U{A0}' || c == '\U{1680}' || ('\U{2000}' <= c <= '\U{200A}')
    || c == '\U{2028}' || c == '\U{2029}' || c == '\U{202F}' || c == '\U{205F}'
    || c == '\U{3000}' || c == '\U{FEFF}'
  }

  predicate AllSpaces(s: string) {
    forall i :: 0 <= i < |s| ==> IsSpace(s[i])
  }

  /** `s.trimStart()`: leading white space removed. */
  function TrimStart(s: string): string {
    if s != [] && IsSpace(s[0]) then TrimStart(s[1..]) else s
  }

  /** `s.trimEnd()`: trailing white space removed. */
  function TrimEnd(s: string): string {
    if s != [] && IsSpace(s[|s| - 1]) then TrimEnd(s[..|s| - 1]) else s
  }

  /** `TrimStart(s)` is the longest suffix of `s` that does not start with white space. */
  lemma {:induction false} TrimStartSpec(s: string)
    ensures var r := TrimStart(s);
            && |r| <= |s| && r == s[|s| - |r|..]
            && AllSpaces(s[..|s| - |r|])
            && (r == [] || !IsSpace(r[0]))
  {
    if s != [] && IsSpace(s[0]) {
      TrimStartSpec(s[1..]);
      var r := TrimStart(s);
      assert s[..|s| - |r|] == [s[0]] + s[1..][..|s[1..]| - |r|];
    }
  }

  /** `TrimEnd(s)` is the longest prefix of `s` that does not end with white space. */
  lemma {:induction false} TrimEndSpec(s: string)
    ensures var r := TrimEnd(s);
            && |r| <= |s| && r == s[..|r|]
            && AllSpaces(s[|r|..])
            && (r == [] || !IsSpace(r[|r| - 1]))
  {
    if s != [] && IsSpace(s[|s| - 1]) {
      var p := s[..|s| - 1];
      TrimEndSpec(p);
      var r := TrimEnd(s);
      assert s[|r|..] == p[|r|..] + [s[|s| - 1]];
      assert p[..|r|] == s[..|r|];
    }
  }

  /** `s.trim()`. */
  function Trim(s: string): string {
    TrimEnd(TrimStart(s))
  }

  lemma {:induction false} TrimStartPadded(w: string, t: string)
    requires AllSpaces(w)
    requires t == [] || !IsSpace(t[0])
    ensures TrimStart(w + t) == t
  {
    if w != [] {
      assert (w + t)[1..] == w[1..] + t;
      TrimStartPadded(w[1..], t);
    } else {
      assert w + t == t;
    }
  }

  lemma {:induction false} TrimEndPadded(t: string, w: string)
    requires AllSpaces(w)
    requires t == [] || !IsSpace(t[|t| - 1])
    ensures TrimEnd(t + w) == t
  {
    if w != [] {
      assert (t + w)[..|t + w| - 1] == t + w[..|w| - 1];
      TrimEndPadded(t, w[..|w| - 1]);
    } else {
      assert t + w == t;
    }
  }

  /** Trimming removes exactly the white space padding around a word that neither starts nor ends with a space. */
  lemma TrimPadded(w1: string, t: string, w2: string)
    requires AllSpaces(w1) && AllSpaces(w2)
    requires t == [] || (!IsSpace(t[0]) && !IsSpace(t[|t| - 1]))
    ensures Trim(w1 + t + w2) == t
  {
    if t == [] {
      TrimStartSpec(w1 + t + w2);
    } else {
      assert w1 + t + w2 == w1 + (t + w2);
      TrimStartPadded(w1, t + w2);
      TrimEndPadded(t, w2);
    }
  }

  // ---------------------------------------------------------------------
  // ASCII case mapping (toLowerCase / toUpperCase restricted to ASCII).

  function LowerChar(c: char): char {
    if 'A' <= c <= 'Z' then (c as int + 32) as char else c
  }

  function UpperChar(c: char): char {
    if 'a' <= c <= 'z' then (c as int - 32) as char else c
  }

  function ToLower(s: string): (r: string)
    ensures |r| == |s| && forall i :: 0 <= i < |s| ==> r[i] == LowerChar(s[i])
  {
    seq(|s|, i requires 0 <= i < |s| => LowerChar(s[i]))
  }

  function ToUpper(s: string): (r: string)
    ensures |r| == |s| && forall i :: 0 <= i < |s| ==> r[i] == UpperChar(s[i])
  {
    seq(|s|, i requires 0 <= i < |s| => UpperChar(s[i]))
  }

  /** Lower-casing is idempotent, so comparing lower-cased emails is stable. */
  lemma ToLowerIdempotent(s: string)
    ensures ToLower(ToLower(s)) == ToLower(s)
  {
  }

  // ---------------------------------------------------------------------
  // Decimal digits and numbers.

  predicate IsDigit(c: char) {
    '0' <= c <= '9'
  }

  predicate AllDigits(s: string) {
    forall i :: 0 <= i < |s| ==> IsDigit(s[i])
  }

  function DigitValue(c: char): nat
    requires IsDigit(c)
  {
    c as int - '0' as int
  }

  /** The value of a string of decimal digits, most significant first. */
  function DigitsValue(s: string): nat
    requires AllDigits(s)
  {
    if s == [] then 0 else 10 * DigitsValue(s[..|s| - 1]) + DigitValue(s[|s| - 1])
  }

  /** The shortest decimal rendering of `n` (as `String(n)` or a template literal prints it). */
  function NatToString(n: nat): (r: string)
    ensures r != [] && AllDigits(r)
    ensures DigitsValue(r) == n
    ensures |r| > 1 ==> r[0] != '0'
  {
    var d := ['0' + (n % 10) as char];
    if n < 10 then
      assert DigitsValue(d) == n;
      d
    else
      var p := NatToString(n / 10);
      assert (p + d)[..|p + d| - 1] == p;
      p + d
  }

  /** `String(i)` for an integer: its decimal digits, after a minus sign when negative. */
  function IntToString(i: int): (r: string)
    ensures r != []
    ensures i >= 0 ==> AllDigits(r) && DigitsValue(r) == i && (|r| > 1 ==> r[0] != '0')
    // a minus sign, then the digits of the magnitude (whose value NatToString's contract states)
    ensures i < 0 ==> r == "-" + NatToString(-i)
  {
    if i < 0 then "-" + NatToString(-i) else NatToString(i)
  }

  /** A negative number prints as a minus sign followed by the decimal digits of its magnitude, without leading zeros. */
  lemma IntToStringNegative(i: int)
    requires i < 0
    ensures var r := IntToString(i);
      r[0] == '-' && AllDigits(r[1..]) && DigitsValue(r[1..]) == -i && (|r| > 2 ==> r[1] != '0')
  {
  }

  /**
   * `Number(s)` for a string: white space around the literal is ignored, the
   * empty string is 0, and an optionally signed decimal integer is its value.
   * Everything else is `NaN` (None) here; see README for the literal forms
   * (fractions, exponents, hexadecimal, Infinity) this leaves out.
   */
  function NumberOf(s: string): (r: Option<int>)
  {
    var t := Trim(s);
    if t == [] then Some(0)
    else if AllDigits(t) then Some(DigitsValue(t))
    else if (t[0] == '-' || t[0] == '+') && |t| > 1 && AllDigits(t[1..]) then
      Some(if t[0] == '-' then -(DigitsValue(t[1..]) as int) else DigitsValue(t[1..]))
    else None
  }

  /** `Number(s)` on digits padded with white space is the digits' value; on the empty string it is 0. */
  lemma NumberOfDigits(w1: string, d: string, w2: string)
    requires AllSpaces(w1) && AllSpaces(w2) && AllDigits(d)
    ensures NumberOf(w1 + d + w2) == Some(DigitsValue(d))
  {
    TrimPadded(w1, d, w2);
  }

  /** The number of leading decimal digits of `s`. */
  function DigitPrefix(s: string): (n: nat)
    ensures n <= |s| && AllDigits(s[..n])
    ensures n < |s| ==> !IsDigit(s[n])
  {
    if s != [] && IsDigit(s[0]) then
      var n := 1 + DigitPrefix(s[1..]);
      assert s[..n] == [s[0]] + s[1..][..n - 1];
      n
    else 0
  }

  /**
   * `parseInt(s, 10)`: leading white space is skipped, one optional sign is
   * read, then the longest run of decimal digits; no digits gives `NaN`
   * (None). Unlike `Number`, trailing garbage is ignored: "12abc" is 12.
   */
  function ParseInt(s: string): (r: Option<int>)
  {
    var t := TrimStart(s);
    var neg := t != [] && t[0] == '-';
    var u := if t != [] && (t[0] == '-' || t[0] == '+') then t[1..] else t;
    var n := DigitPrefix(u);
    if n == 0 then None
    else Some(if neg then -(DigitsValue(u[..n]) as int) else DigitsValue(u[..n]))
  }

  /** `parseInt` of a digit string followed by anything that is not a digit reads just the digits. */
  lemma ParseIntDigits(d: string, rest: string)
    requires d != [] && AllDigits(d)
    requires rest == [] || !IsDigit(rest[0])
    ensures ParseInt(d + rest) == Some(DigitsValue(d))
  {
    var s := d + rest;
    assert TrimStart(s) == s by {
      assert !IsSpace(s[0]);
    }
    DigitPrefixOf(d, rest);
    assert s[..|d|] == d;
  }

  lemma {:induction false} DigitPrefixOf(d: string, rest: string)
    requires AllDigits(d)
    requires rest == [] || !IsDigit(rest[0])
    ensures DigitPrefix(d + rest) == |d|
  {
    if d != [] {
      assert (d + rest)[1..] == d[1..] + rest;
      DigitPrefixOf(d[1..], rest);
    } else {
      assert d + rest == rest;
    }
  }

  // ---------------------------------------------------------------------
  // Array join and string split.

  /** `parts.join(sep)`. */
  function Join(parts: seq<string>, sep: string): string {
    if parts == [] then ""
    else if |parts| == 1 then parts[0]
    else parts[0] + sep + Join(parts[1..], sep)
  }

  /** `s.split(c)` for a one-character separator: every occurrence of `c` ends one piece. */
  function Split(s: string, c: char): (r: seq<string>)
    ensures |r| >= 1
    ensures forall i :: 0 <= i < |r| ==> c !in r[i]
  {
    if c !in s then [s]
    else
      var k := FirstIndex(s, c);
      [s[..k]] + Split(s[k + 1..], c)
  }

  /** The index of the first occurrence of `c` in `s`. */
  function FirstIndex(s: string, c: char): (k: nat)
    requires c in s
    ensures k < |s| && s[k] == c && c !in s[..k]
  {
    if s[0] == c then 0
    else
      assert c in s[1..];
      var k := 1 + FirstIndex(s[1..], c);
      assert s[..k] == [s[0]] + s[1..][..k - 1];
      k
  }

  /** Splitting on `c` and joining with `c` gives back the original string. */
  lemma {:induction false} SplitJoin(s: string, c: char)
    ensures Join(Split(s, c), [c]) == s
  {
    if c in s {
      var k := FirstIndex(s, c);
      var rest := Split(s[k + 1..], c);
      SplitJoin(s[k + 1..], c);
      assert Split(s, c) == [s[..k]] + rest;
      assert s == s[..k] + [c] + s[k + 1..];
    }
  }

  /** Joining pieces free of `c` with `c` and splitting at `c` gives back the pieces. */
  lemma {:induction false} JoinSplit(parts: seq<string>, c: char)
    requires parts != []
    requires forall i :: 0 <= i < |parts| ==> c !in parts[i]
    ensures Split(Join(parts, [c]), c) == parts
  {
    if |parts| > 1 {
      var rest := parts[1..];
      JoinSplit(rest, c);
      assert Join(parts, [c]) == parts[0] + [c] + Join(rest, [c]);
      SplitAtFirst(parts[0], c, Join(rest, [c]));
      assert parts == [parts[0]] + rest;
    }
  }

  /** A character that is in no piece and not in the separator is not in the joined string. */
  lemma {:induction false} NotInJoin(parts: seq<string>, sep: string, c: char)
    requires c !in sep
    requires forall i :: 0 <= i < |parts| ==> c !in parts[i]
    ensures c !in Join(parts, sep)
  {
    if |parts| > 1 {
      NotInJoin(parts[1..], sep, c);
    }
  }

  /** The first piece of a split is the text before the first separator, the remaining pieces split what follows it. */
  lemma SplitAtFirst(pre: string, c: char, post: string)
    requires c !in pre
    ensures Split(pre + [c] + post, c) == [pre] + Split(post, c)
  {
    var s := pre + [c] + post;
    assert s[|pre|] == c;
    var k := FirstIndex(s, c);
    assert k == |pre|;
    assert s[..k] == pre;
    assert s[k + 1..] == post;
  }

  // ---------------------------------------------------------------------
  // Substring search.

  predicate IsPrefix(t: string, s: string) {
    |t| <= |s| && s[..|t|] == t
  }

  /** `s.includes(t)`, searching left to right. */
  predicate Contains(s: string, t: string)
    decreases |s|
  {
    IsPrefix(t, s) || (s != [] && Contains(s[1..], t))
  }

  /** `t` occurs in `s` starting at offset `i`. */
  predicate OccursAt(s: string, t: string, i: int) {
    0 <= i <= |s| - |t| && s[i..i + |t|] == t
  }

  /** The search finds `t` exactly when `t` occurs at some offset of `s`. */
  lemma {:induction false} ContainsIff(s: string, t: string)
    ensures Contains(s, t) <==> exists i :: OccursAt(s, t, i)
    decreases |s|
  {
    if IsPrefix(t, s) {
      assert OccursAt(s, t, 0);
    } else if s == [] {
    } else {
      ContainsIff(s[1..], t);
      if exists i :: OccursAt(s, t, i) {
        var i :| OccursAt(s, t, i);
        assert i != 0;
        assert OccursAt(s[1..], t, i - 1);
      }
      if Contains(s[1..], t) {
        var j :| OccursAt(s[1..], t, j);
        assert s[1..][j..j + |t|] == s[j + 1..j + 1 + |t|];
        assert OccursAt(s, t, j + 1);
      }
    }
  }

  /** Case-insensitive containment, ASCII letters folded to lower case. */
  predicate ContainsInsensitive(s: string, t: string) {
    Contains(ToLower(s), ToLower(t))
  }
}
