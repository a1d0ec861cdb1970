/**
 * Token and hashing configuration: the expiry parser that turns strings such
 * as "7d", "24h", "30m", "15s" or "3600" into seconds, the options handed to
 * the token signer, and the bcrypt salt-round count. Environment variables
 * are parameters (`None` when unset).
 */
module JwtConfig {
  import opened Js

  /** The letters of the unit group `(s|m|h|d)`, matched case-insensitively. */
  predicate IsUnit(c: char) {
    c in "smhdSMHD"
  }

  /** The `switch` on the lower-cased unit: the value in seconds, minutes, hours or days, converted to seconds. */
  function ToSeconds(value: nat, u: char): (r: nat)
    requires IsUnit(u)
    ensures LowerChar(u) == 's' ==> r == value
    ensures LowerChar(u) == 'm' ==> r == 60 * value
    ensures LowerChar(u) == 'h' ==> r == 3600 * value
    ensures LowerChar(u) == 'd' ==> r == 86400 * value
  {
    match LowerChar(u)
    case 's' => value
    case 'm' => value * 60
    case 'h' => value * 60 * 60
    case _ => value * 60 * 60 * 24
  }

  /**
   * `t` has the shape `<digits><white space><unit>` with the digits ending
   * at offset `n`: the regular expression `^(\d+)\s*(s|m|h|d)$` (flag i)
   * matches `t` with group 1 equal to `t[..n]`.
   */
  predicate UnitFormAt(t: string, n: int) {
    && 1 <= n < |t|
    && AllDigits(t[..n])
    && AllSpaces(t[n..|t| - 1])
    && IsUnit(t[|t| - 1])
  }

  /** The match of `^(\d+)\s*(s|m|h|d)$` against a trimmed string, converted to seconds. */
  function MatchUnitForm(t: string): Option<nat> {
    if |t| < 2 || !IsUnit(t[|t| - 1]) then None
    else
      var body := t[..|t| - 1];
      var n := DigitPrefix(body);
      if n == 0 || !AllSpaces(body[n..]) then None
      else Some(ToSeconds(DigitsValue(body[..n]), t[|t| - 1]))
  }

  /** A successful match is a decomposition of `t` into digits, spaces and a unit. */
  lemma MatchUnitFormShape(t: string)
    ensures var r := MatchUnitForm(t);
            r.Some? ==> exists n :: UnitFormAt(t, n) && r.value == ToSeconds(DigitsValue(t[..n]), t[|t| - 1])
  {
    if MatchUnitForm(t).Some? {
      var body := t[..|t| - 1];
      var n := DigitPrefix(body);
      assert t[..n] == body[..n] && t[n..|t| - 1] == body[n..];
      assert UnitFormAt(t, n);
    }
  }

  /** `d`, then spaces `w`, then a unit letter, matches with `d` as the number. */
  lemma {:induction false} MatchUnitFormOf(d: string, w: string, u: char)
    requires AllSpaces(w) && d != [] && AllDigits(d) && IsUnit(u)
    ensures MatchUnitForm(d + w + [u]) == Some(ToSeconds(DigitsValue(d), u))
  {
    var t := d + w + [u];
    var body := t[..|t| - 1];
    assert body == d + w;
    if w != [] {
      assert !IsDigit(w[0]);
    }
    DigitPrefixOf(d, w);
    assert body[..|d|] == d && body[|d|..] == w;
  }

  /** `parseExpiry(exp)`: seconds, or `None` for undefined. */
  function ParseExpiry(exp: Option<string>): (r: Option<nat>)
    ensures !Truthy(exp) ==> r == None
  {
    if !Truthy(exp) then None
    else
      var t := Trim(exp.value);
      if t != [] && AllDigits(t) then Some(DigitsValue(t))
      else MatchUnitForm(t)
  }

  /** A plain number of seconds, with any white space around it, is read as that number. */
  lemma {:induction false} ParseExpiryPlain(w1: string, d: string, w2: string)
    requires AllSpaces(w1) && AllSpaces(w2)
    requires d != [] && AllDigits(d)
    ensures ParseExpiry(Some(w1 + d + w2)) == Some(DigitsValue(d))
  {
    TrimPadded(w1, d, w2);
  }

  /** `<digits><spaces><unit>`, with any white space around it, is the digits times the unit's seconds. */
  lemma {:induction false} ParseExpiryUnit(w1: string, d: string, w: string, u: char, w2: string)
    requires AllSpaces(w1) && AllSpaces(w) && AllSpaces(w2)
    requires d != [] && AllDigits(d) && IsUnit(u)
    ensures ParseExpiry(Some(w1 + d + w + [u] + w2)) == Some(ToSeconds(DigitsValue(d), u))
  {
    var t := d + w + [u];
    assert w1 + d + w + [u] + w2 == w1 + t + w2;
    assert t[0] == d[0];
    TrimPadded(w1, t, w2);
    assert !IsDigit(t[|t| - 1]);
    MatchUnitFormOf(d, w, u);
  }

  /** Every defined result comes from one of the two accepted shapes of the trimmed input. */
  lemma {:induction false} ParseExpiryShapes(s: string)
    ensures var r := ParseExpiry(Some(s));
            var t := Trim(s);
            r.Some? ==>
              || (t != [] && AllDigits(t) && r.value == DigitsValue(t))
              || (exists n :: UnitFormAt(t, n) && r.value == ToSeconds(DigitsValue(t[..n]), t[|t| - 1]))
  {
    MatchUnitFormShape(Trim(s));
  }

  /** Inputs of any other shape are rejected: a fraction, a sign, an unknown unit, a unit without digits, blanks. */
  lemma ParseExpiryRejects()
    ensures ParseExpiry(Some("1.5h")) == None
    ensures ParseExpiry(Some("-5")) == None
    ensures ParseExpiry(Some("7w")) == None
    ensures ParseExpiry(Some("d")) == None
    ensures ParseExpiry(Some("   ")) == None
  {
    RejectFraction();
    RejectSign();
    RejectUnknownUnit();
    RejectMissingDigits();
    RejectBlank();
  }

  lemma RejectFraction()
    ensures ParseExpiry(Some("1.5h")) == None
  {
    TrimPadded([], "1.5h", []);
    assert [] + "1.5h" + [] == "1.5h";
    assert !IsDigit("1.5h"[1]);
    var body := "1.5h"[..3];
    assert body == "1.5";
    assert DigitPrefix(body) == 1 by {
      DigitPrefixOf("1", ".5");
      assert "1" + ".5" == body;
    }
    assert !IsSpace(body[1..][0]);
  }

  lemma RejectSign()
    ensures ParseExpiry(Some("-5")) == None
  {
    TrimPadded([], "-5", []);
    assert [] + "-5" + [] == "-5";
    assert !IsDigit("-5"[0]);
    assert !IsUnit('5');
  }

  lemma RejectUnknownUnit()
    ensures ParseExpiry(Some("7w")) == None
  {
    TrimPadded([], "7w", []);
    assert [] + "7w" + [] == "7w";
    assert !IsDigit("7w"[1]);
    assert !IsUnit('w');
  }

  lemma RejectMissingDigits()
    ensures ParseExpiry(Some("d")) == None
  {
    TrimPadded([], "d", []);
    assert [] + "d" + [] == "d";
    assert !IsDigit("d"[0]);
  }

  lemma RejectBlank()
    ensures ParseExpiry(Some("   ")) == None
  {
    TrimPadded("   ", [], []);
    assert "   " + [] + [] == "   ";
  }

  /** `<digits><unit>` with nothing around it. */
  lemma {:induction false} ParseExpiryUnitBare(d: string, u: char)
    requires d != [] && AllDigits(d) && IsUnit(u)
    ensures ParseExpiry(Some(d + [u])) == Some(ToSeconds(DigitsValue(d), u))
  {
    TrimPadded([], d + [u], []);
    assert [] + (d + [u]) + [] == d + [u];
    assert !IsDigit((d + [u])[|d|]);
    MatchUnitFormOf(d, [], u);
    assert d + [] + [u] == d + [u];
  }

  /** For a fixed unit, a larger number gives a later expiry. */
  lemma {:induction false} ParseExpiryMonotone(d1: string, d2: string, u: char)
    requires d1 != [] && AllDigits(d1) && d2 != [] && AllDigits(d2) && IsUnit(u)
    requires DigitsValue(d1) <= DigitsValue(d2)
    ensures ParseExpiry(Some(d1 + [u])).Some? && ParseExpiry(Some(d2 + [u])).Some?
    ensures ParseExpiry(Some(d1 + [u])).value <= ParseExpiry(Some(d2 + [u])).value
  {
    ParseExpiryUnitBare(d1, u);
    ParseExpiryUnitBare(d2, u);
  }

  // ---------------------------------------------------------------------
  // Derived configuration.

  /** `TOKEN_EXPIRY = process.env.TOKEN_EXPIRY ?? "7d"`: only an unset variable takes the default. */
  function TokenExpiry(env: Option<string>): string {
    Coalesce(env, "7d")
  }

  /** `expiresInSeconds = parseExpiry(TOKEN_EXPIRY)`. */
  function ExpiresInSeconds(env: Option<string>): Option<nat> {
    ParseExpiry(Some(TokenExpiry(env)))
  }

  /** The options passed to the signer: `{ expiresIn }` or `{}`. */
  datatype SignOptions = SignOptions(expiresIn: Option<nat>)

  /** `jwtOptions` carries `expiresIn` exactly when the parsed expiry is truthy (defined and non-zero). */
  function JwtOptions(env: Option<string>): (o: SignOptions)
    ensures o.expiresIn.Some? <==> ExpiresInSeconds(env).Some? && ExpiresInSeconds(env).value != 0
    ensures o.expiresIn.Some? ==> o.expiresIn == ExpiresInSeconds(env)
  {
    var e := ExpiresInSeconds(env);
    if e.Some? && e.value != 0 then SignOptions(e) else SignOptions(None)
  }

  /** With TOKEN_EXPIRY unset, tokens expire after seven days (604800 seconds). */
  lemma JwtOptionsDefault()
    ensures ExpiresInSeconds(None) == Some(604800)
    ensures JwtOptions(None) == SignOptions(Some(604800))
  {
    var seven := "7";
    assert DigitsValue(seven) == 7 by {
      assert seven[..0] == [];
    }
    ParseExpiryUnitBare(seven, 'd');
    assert seven + ['d'] == "7d";
  }

  /** "0", the empty string and an invalid value give no expiry at all. */
  lemma JwtOptionsWithoutExpiry()
    ensures JwtOptions(Some("0")) == SignOptions(None)
    ensures JwtOptions(Some("")) == SignOptions(None)
    ensures JwtOptions(Some("7w")) == SignOptions(None)
  {
    ParseExpiryPlain([], "0", []);
    assert [] + "0" + [] == "0";
    RejectUnknownUnit();
  }

  /** `SALT_ROUNDS = Number(process.env.SALT_ROUNDS) || 10`. */
  function SaltRounds(env: Option<string>): (r: int)
    ensures env.None? ==> r == 10
    ensures env.Some? && NumberOf(env.value).None? ==> r == 10
    ensures env.Some? && NumberOf(env.value) == Some(0) ==> r == 10
    ensures env.Some? && TruthyInt(NumberOf(env.value)) ==> r == NumberOf(env.value).value
  {
    var n := if env.None? then None else NumberOf(env.value);
    if TruthyInt(n) then n.value else 10
  }

  /** A digit string in SALT_ROUNDS is used as the count, except that 0 (and the empty string) fall back to 10. */
  lemma {:induction false} SaltRoundsOf(d: string)
    requires AllDigits(d)
    ensures SaltRounds(Some(d)) == if DigitsValue(d) == 0 then 10 else DigitsValue(d)
  {
    NumberOfDigits([], d, []);
    assert [] + d + [] == d;
  }
}
