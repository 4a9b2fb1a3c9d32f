/**
 * JSON Web Tokens, symbolically. A token is the value `jwt.sign` puts into
 * its string: the claims, the secret it was signed under, the configured
 * lifetime and the issue time in seconds. The string form is an escaped,
 * dot-separated list of fields; what matters is that it is injective and that
 * `Decode` accepts exactly the strings `Encode` produces, so a string verifies
 * under a secret exactly when it was signed under that secret. Signing is
 * deterministic, as HMAC signing is: the same claims, secret, lifetime and
 * second give the same string.
 */
module Jwt {
  import opened Wrappers

  datatype Claims =
    | AccessClaims(id: nat, email: string, username: string, fullName: string)
    | RefreshClaims(id: nat)

  datatype Token = Token(claims: Claims, secret: string, expiresIn: string, issuedAt: nat)

  // ---- fields: escape '.' and '\', terminate each field with '.' ----

  predicate IsSpecial(c: char) {
    c == '.' || c == '\\'
  }

  function Escape(f: string): string {
    if f == [] then []
    else (if IsSpecial(f[0]) then ['\\', f[0]] else [f[0]]) + Escape(f[1..])
  }

  function Join(fs: seq<string>): string {
    if fs == [] then [] else Escape(fs[0]) + ['.'] + Join(fs[1..])
  }

  /** The first field of `s` and what follows its terminating '.'. */
  function ReadField(s: string): (r: Option<(string, string)>)
    ensures r.Some? ==> |r.value.1| < |s|
  {
    if s == [] then None
    else if s[0] == '.' then Some(([], s[1..]))
    else if s[0] == '\\' then
      if |s| < 2 || !IsSpecial(s[1]) then None
      else match ReadField(s[2..])
        case None => None
        case Some((f, rest)) => Some(([s[1]] + f, rest))
    else match ReadField(s[1..])
      case None => None
      case Some((f, rest)) => Some(([s[0]] + f, rest))
  }

  function Split(s: string): Option<seq<string>>
    decreases |s|
  {
    if s == [] then Some([])
    else match ReadField(s)
      case None => None
      case Some((f, rest)) =>
        match Split(rest)
        case None => None
        case Some(fs) => Some([f] + fs)
  }

  lemma {:induction false} ReadEscaped(f: string, rest: string)
    ensures ReadField(Escape(f) + ['.'] + rest) == Some((f, rest))
  {
    var s := Escape(f) + ['.'] + rest;
    if f == [] {
      assert s == ['.'] + rest;
    } else {
      ReadEscaped(f[1..], rest);
      var tail := Escape(f[1..]) + ['.'] + rest;
      var head := if IsSpecial(f[0]) then ['\\', f[0]] else [f[0]];
      assert Escape(f) == head + Escape(f[1..]);
      assert s == head + tail;
      assert s[|head|..] == tail;
      assert [f[0]] + f[1..] == f;
    }
  }

  lemma {:induction false} ReadFieldShape(s: string)
    requires ReadField(s).Some?
    ensures s == Escape(ReadField(s).value.0) + ['.'] + ReadField(s).value.1
  {
    if s[0] == '.' {
      assert s == ['.'] + s[1..];
    } else if s[0] == '\\' {
      ReadFieldShape(s[2..]);
      var (f, rest) := ReadField(s[2..]).value;
      assert ([s[1]] + f)[1..] == f;
      assert s == ['\\', s[1]] + s[2..];
    } else {
      ReadFieldShape(s[1..]);
      var (f, rest) := ReadField(s[1..]).value;
      assert ([s[0]] + f)[1..] == f;
      assert s == [s[0]] + s[1..];
    }
  }

  lemma {:induction false} SplitJoin(fs: seq<string>)
    ensures Split(Join(fs)) == Some(fs)
  {
    if fs != [] {
      ReadEscaped(fs[0], Join(fs[1..]));
      SplitJoin(fs[1..]);
      assert [fs[0]] + fs[1..] == fs;
    }
  }

  lemma {:induction false} JoinSplit(s: string)
    requires Split(s).Some?
    ensures Join(Split(s).value) == s
    decreases |s|
  {
    if s != [] {
      ReadFieldShape(s);
      var (f, rest) := ReadField(s).value;
      JoinSplit(rest);
      var fs := Split(s).value;
      assert fs[0] == f && fs[1..] == Split(rest).value;
    }
  }

  // ---- numbers: canonical decimal ----

  predicate IsDigit(c: char) {
    '0' <= c <= '9'
  }

  predicate AllDigits(s: string) {
    forall i :: 0 <= i < |s| ==> IsDigit(s[i])
  }

  function DigitChar(d: nat): char
    requires d < 10
  {
    ('0' as int + d) as char
  }

  function Decimal(n: nat): (s: string)
    ensures |s| >= 1 && AllDigits(s)
    ensures |s| > 1 ==> s[0] != '0'
  {
    if n < 10 then [DigitChar(n)] else Decimal(n / 10) + [DigitChar(n % 10)]
  }

  function DigitsValue(s: string): nat
    requires AllDigits(s)
  {
    if s == [] then 0
    else DigitsValue(s[..|s| - 1]) * 10 + (s[|s| - 1] as int - '0' as int)
  }

  /** A decimal number without leading zeros. */
  function ParseNat(s: string): Option<nat> {
    if |s| >= 1 && AllDigits(s) && (s[0] != '0' || |s| == 1) then Some(DigitsValue(s)) else None
  }

  lemma {:induction false} DecimalValue(n: nat)
    ensures DigitsValue(Decimal(n)) == n
  {
    if n >= 10 {
      DecimalValue(n / 10);
      var s := Decimal(n);
      assert s[..|s| - 1] == Decimal(n / 10);
    }
  }

  lemma ParseDecimal(n: nat)
    ensures ParseNat(Decimal(n)) == Some(n)
  {
    DecimalValue(n);
  }

  lemma {:induction false} LeadingDigitPositive(s: string)
    requires |s| >= 1 && AllDigits(s) && s[0] != '0'
    ensures DigitsValue(s) >= 1
  {
    if |s| > 1 {
      LeadingDigitPositive(s[..|s| - 1]);
    }
  }

  lemma {:induction false} DecimalOfParsed(s: string)
    requires ParseNat(s).Some?
    ensures Decimal(ParseNat(s).value) == s
    decreases |s|
  {
    if |s| > 1 {
      var p := s[..|s| - 1];
      var d := s[|s| - 1] as int - '0' as int;
      var m := DigitsValue(p);
      LeadingDigitPositive(p);
      assert ParseNat(p) == Some(m);
      DecimalOfParsed(p);
      var n := m * 10 + d;
      assert n / 10 == m && n % 10 == d;
      assert s == p + [s[|s| - 1]];
    }
  }

  // ---- tokens ----

  function Fields(t: Token): seq<string> {
    match t.claims
    case AccessClaims(id, email, username, fullName) =>
      ["access", Decimal(id), email, username, fullName, t.secret, t.expiresIn, Decimal(t.issuedAt)]
    case RefreshClaims(id) =>
      ["refresh", Decimal(id), t.secret, t.expiresIn, Decimal(t.issuedAt)]
  }

  function FromFields(fs: seq<string>): Option<Token> {
    if |fs| == 8 && fs[0] == "access" then
      match (ParseNat(fs[1]), ParseNat(fs[7]))
      case (Some(id), Some(iat)) => Some(Token(AccessClaims(id, fs[2], fs[3], fs[4]), fs[5], fs[6], iat))
      case _ => None
    else if |fs| == 5 && fs[0] == "refresh" then
      match (ParseNat(fs[1]), ParseNat(fs[4]))
      case (Some(id), Some(iat)) => Some(Token(RefreshClaims(id), fs[2], fs[3], iat))
      case _ => None
    else None
  }

  function Encode(t: Token): string {
    Join(Fields(t))
  }

  function Decode(s: string): Option<Token> {
    match Split(s)
    case None => None
    case Some(fs) => FromFields(fs)
  }

  lemma FromFieldsOfFields(t: Token)
    ensures FromFields(Fields(t)) == Some(t)
  {
    ParseDecimal(t.claims.id);
    ParseDecimal(t.issuedAt);
  }

  lemma FieldsOfFromFields(fs: seq<string>)
    requires FromFields(fs).Some?
    ensures Fields(FromFields(fs).value) == fs
  {
    var t := FromFields(fs).value;
    DecimalOfParsed(fs[1]);
    if |fs| == 8 {
      DecimalOfParsed(fs[7]);
      assert fs[0] == "access" && t.claims.AccessClaims?;
      assert Fields(t) == fs;
    } else {
      DecimalOfParsed(fs[4]);
      assert fs[0] == "refresh" && t.claims.RefreshClaims?;
      assert Fields(t) == fs;
    }
  }

  /** Every token is read back from its string. */
  lemma DecodeEncode(t: Token)
    ensures Decode(Encode(t)) == Some(t)
  {
    SplitJoin(Fields(t));
    FromFieldsOfFields(t);
  }

  /** Every string that decodes is the encoding of what it decodes to. */
  lemma EncodeDecode(s: string)
    requires Decode(s).Some?
    ensures Encode(Decode(s).value) == s
  {
    JoinSplit(s);
    FieldsOfFromFields(Split(s).value);
  }

  /** `jwt.sign(claims, secret, {expiresIn})` at second `issuedAt`. */
  function Sign(claims: Claims, secret: string, expiresIn: string, issuedAt: nat): (s: string)
    ensures Decode(s) == Some(Token(claims, secret, expiresIn, issuedAt))
    ensures s != ""
  {
    assert Decode("") == None;
    DecodeEncode(Token(claims, secret, expiresIn, issuedAt));
    Encode(Token(claims, secret, expiresIn, issuedAt))
  }

  /**
   * `jwt.verify(s, secret)`: the claims of a string signed under `secret`, or the
   * library's error message. Expiry against a clock is not modelled.
   */
  function Verify(s: string, secret: string): Result<Claims, string> {
    match Decode(s)
    case None => Failure("jwt malformed")
    case Some(t) => if t.secret == secret then Success(t.claims) else Failure("invalid signature")
  }

  /** A signed token verifies under its own secret, with its claims, and under no other. */
  lemma VerifySigned(claims: Claims, secret: string, expiresIn: string, issuedAt: nat, key: string)
    ensures Verify(Sign(claims, secret, expiresIn, issuedAt), key)
         == if key == secret then Success(claims) else Failure("invalid signature")
  {
  }

  /** A string verifies under `secret` only if it was signed under `secret`. */
  lemma VerifiedWasSigned(s: string, secret: string)
    requires Verify(s, secret).Success?
    ensures exists e, iat :: s == Sign(Verify(s, secret).value, secret, e, iat)
  {
    var t := Decode(s).value;
    EncodeDecode(s);
    assert s == Sign(t.claims, secret, t.expiresIn, t.issuedAt);
  }
}
