/**
 Numbers, timestamps and identities as the JSON writer spells them, and as the typed
 reader takes them back.
 */
module JsonDecimal {
  import opened Octets
  import opened JsonText
  import opened JsonNumber
  import T = Texts

  // ---------------------------------------------------------------- decimal numbers

  function DigitChar(d: nat): (c: char)
    requires d < 10
    ensures IsDigit(c) && Digit(c) == d && (c == '0' <==> d == 0)
  {
    '0' + d as char
  }

  /** `to_string` of a number that is not negative. */
  function DecText(n: nat): text {
    if n < 10 then [DigitChar(n)] else DecText(n / 10) + [DigitChar(n % 10)]
  }

  /** Exactly `k` digits, as `%.9u` writes them. */
  function DecPad(n: nat, k: nat): (s: text)
    ensures |s| == k
  {
    if k == 0 then [] else DecPad(n / 10, k - 1) + [DigitChar(n % 10)]
  }

  lemma {:induction false} DecTextBack(n: nat)
    ensures var s := DecText(n); s != [] && Decimal(s) == n && AllDigits(s, 0, |s|) && (s[0] == '0' ==> n == 0 && |s| == 1)
    decreases n
  {
    if n < 10 {
      assert DecText(n)[..0] == [];
    } else {
      DecTextBack(n / 10);
      var s, t := DecText(n), DecText(n / 10);
      assert s[..|s| - 1] == t && s[0] == t[0];
      assert forall i :: 0 <= i < |t| ==> s[i] == t[i];
    }
  }

  lemma {:induction false} DecPadBack(n: nat, k: nat)
    requires n < Ten(k)
    ensures Decimal(DecPad(n, k)) == n && AllDigits(DecPad(n, k), 0, k)
    decreases k
  {
    if k > 0 {
      DecPadBack(n / 10, k - 1);
      var s, t := DecPad(n, k), DecPad(n / 10, k - 1);
      assert s[..k - 1] == t;
      assert forall i :: 0 <= i < k - 1 ==> s[i] == t[i];
    }
  }

  function NumberOf(v: int): Number {
    Number(if v < 0 then ['-'] + DecText(-v) else DecText(v), 0, 0)
  }

  /** The number is in the form of the lexer, and its value is found again. */
  lemma NumberOfBack(v: int)
    ensures NumberForm(NumberOf(v))
    ensures v >= 0 ==> Sign(NumberOf(v).val) == 0 && Decimal(NumberOf(v).val) == v
    ensures v < 0 ==> Sign(NumberOf(v).val) == 1 && Decimal(NumberOf(v).val[1..]) == -v
  {
    var s := NumberOf(v).val;
    if v < 0 {
      DecTextBack(-v);
      assert s[1..] == DecText(-v);
      assert forall i :: 1 <= i < |s| ==> s[i] == DecText(-v)[i - 1];
    } else {
      DecTextBack(v);
    }
  }

  /** `getInt64` of a number token; a leading zero means zero. */
  function GetInt64(n: Number): Option<int> {
    if n.dot > 0 || n.e > 0 || n.val == [] then None
    else if n.val[0] == '0' then Some(0)
    else Some(ToInt64(n.val))
  }

  function GetUint64(n: Number): Option<nat> {
    if n.dot > 0 || n.e > 0 || n.val == [] || n.val[0] == '-' then None
    else if n.val[0] == '0' then Some(0)
    else Some(ToUint64(n.val))
  }

  lemma IntBack(v: int)
    requires -INT64_MAX - 1 <= v <= INT64_MAX
    ensures GetInt64(NumberOf(v)) == Some(v)
  {
    NumberOfBack(v);
    if v >= 0 { DecTextBack(v); }
  }

  lemma UintBack(v: nat)
    requires v <= UINT64_MAX
    ensures GetUint64(NumberOf(v)) == Some(v)
  {
    NumberOfBack(v);
    DecTextBack(v);
  }

  // ---------------------------------------------------------------- timestamps

  /** `Timestamp_t::string`. */
  function TimeNumber(seconds: nat, nanoseconds: nat): Number {
    var s := DecText(seconds);
    Number(s + ['.'] + DecPad(nanoseconds, 9), |s|, 0)
  }

  lemma Ten9()
    ensures Ten(9) == 1_000_000_000
  {
    assert Ten(3) == 1000 && Ten(6) == 1000 * Ten(3) && Ten(9) == 1000 * Ten(6);
  }

  /** A timestamp of at least a second is read back from its text. */
  lemma TimeBack(seconds: nat, nanoseconds: nat)
    requires seconds <= INT64_MAX && nanoseconds < 1_000_000_000
    ensures NumberForm(TimeNumber(seconds, nanoseconds))
    ensures GetFrac(TimeNumber(seconds, nanoseconds), 9) == Some(Frac(seconds, nanoseconds))
  {
    hide DecText, DecPad, Decimal, NumberForm, AllDigits, Ten;
    var a, b := DecText(seconds), DecPad(nanoseconds, 9);
    Ten9();
    DecTextBack(seconds);
    DecPadBack(nanoseconds, 9);
    DottedForm(a, b);
    TenNone();
  }

  lemma TenNone()
    ensures Ten(0) == 1
  {
  }

  lemma DottedForm(a: text, b: text)
    requires a != [] && b != [] && AllDigits(a, 0, |a|) && AllDigits(b, 0, |b|) && (a[0] == '0' ==> |a| == 1)
    ensures var v := a + ['.'] + b;
      NumberForm(Number(v, |a|, 0)) && v[..|a|] == a && v[|a| + 1..] == b && Sign(v) == 0 && Sign(a) == 0
  {
    var v := a + ['.'] + b;
    assert forall i :: 0 <= i < |a| ==> v[i] == a[i];
    assert forall i :: |a| < i < |v| ==> v[i] == b[i - |a| - 1];
  }

  // ---------------------------------------------------------------- identities

  /** `ClockIdentity_t::string`: 3, 2 and 3 octets. */
  function ClockText(b: seq<octet>): text
    requires |b| == 8
  {
    T.ToHex(b[..3]) + ['.'] + (T.ToHex(b[3..5]) + ['.'] + T.ToHex(b[5..]))
  }

  lemma ClockBack(b: seq<octet>)
    requires |b| == 8
    ensures T.FromHex(ClockText(b)) == Some(b)
  {
    hide T.ToHex, T.Tokens, T.HexTokens, T.HexToken;
    var x, y, z := b[..3], b[3..5], b[5..];
    var sep := T.ID_SEPARATORS;
    T.ToHexPlain(x);
    T.ToHexPlain(y);
    T.ToHexPlain(z);
    var second := T.ToHex(y) + ['.'] + T.ToHex(z);
    T.OneToken(T.ToHex(z), sep);
    T.TokenThen(T.ToHex(y), '.', T.ToHex(z), sep);
    T.TokenThen(T.ToHex(x), '.', second, sep);
    HexThree(T.ToHex(x), T.ToHex(y), T.ToHex(z), x, y, z);
    assert T.Tokens(ClockText(b), sep) == [T.ToHex(x), T.ToHex(y), T.ToHex(z)];
    assert x + (y + z) == b;
  }

  lemma HexThree(s: text, t: text, u: text, x: seq<octet>, y: seq<octet>, z: seq<octet>)
    requires s == T.ToHex(x) && t == T.ToHex(y) && u == T.ToHex(z)
    ensures T.HexTokens([s, t, u]) == Some(x + (y + z))
  {
    T.HexTokenRoundTrip(x);
    T.HexTokenRoundTrip(y);
    T.HexTokenRoundTrip(z);
    assert [s, t, u][1..] == [t, u] && [t, u][1..] == [u] && [u][1..] == [];
    assert T.HexTokens([]) == Some([]) && z + [] == z;
    assert T.HexTokens([u]) == Some(z);
    assert T.HexTokens([t, u]) == Some(y + z);
  }
}
