/**
 The C library functions the text readers rely on, and the hexadecimal texts of `Binary`.
 */
module Texts {
  import opened Octets

  predicate IsSpace(c: char) { c == ' ' || (9 <= c as int <= 13) }

  predicate IsDigit(c: char) { '0' <= c <= '9' }

  function DigitValue(c: char): int {
    if IsDigit(c) then (c - '0') as int
    else if 'a' <= c <= 'f' then 10 + (c - 'a') as int
    else if 'A' <= c <= 'F' then 10 + (c - 'A') as int
    else 99
  }

  function SkipSpaces(s: seq<char>): (r: seq<char>)
    ensures |r| <= |s| && (r != [] ==> !IsSpace(r[0]))
  {
    if s != [] && IsSpace(s[0]) then SkipSpaces(s[1..]) else s
  }

  function StripEnd(s: seq<char>): seq<char> {
    if s != [] && IsSpace(s[|s| - 1]) then StripEnd(s[..|s| - 1]) else s
  }

  /** The characters in front of the first one of `stops`. */
  function Before(s: seq<char>, stops: set<char>): (r: seq<char>)
    ensures |r| <= |s| && r == s[..|r|]
    ensures forall c :: c in r ==> c !in stops
    ensures |r| < |s| ==> s[|r|] in stops
  {
    if s == [] || s[0] in stops then [] else [s[0]] + Before(s[1..], stops)
  }

  const SPACES: set<char> := set c: char | IsSpace(c)

  /** All tokens of `strtok`. */
  function Tokens(s: seq<char>, seps: set<char>): seq<seq<char>>
    decreases |s|
  {
    if s == [] then []
    else if s[0] in seps then Tokens(s[1..], seps)
    else var t := Before(s, seps); [t] + Tokens(s[|t|..], seps)
  }

  /** Digits of a base, most significant first. */
  function Digits(s: seq<char>, base: nat): Option<nat> {
    if s == [] then Some(0)
    else
      var d := DigitValue(s[|s| - 1]);
      match Digits(s[..|s| - 1], base)
      case None => None
      case Some(v) => if d < base then Some(v * base + d) else None
  }

  /** `strtol` on a text that it reads to the end. Base 0 tells the base from the prefix. */
  function WholeNumber(s: seq<char>, base: nat): Option<int> {
    var t := SkipSpaces(s);
    var signed := t != [] && (t[0] == '-' || t[0] == '+');
    var u := if signed then t[1..] else t;
    var prefixed := (base == 0 || base == 16) && |u| >= 3 && u[0] == '0' && (u[1] == 'x' || u[1] == 'X') && DigitValue(u[2]) < 16;
    var b := if prefixed then 16 else if base != 0 then base else if u != [] && u[0] == '0' then 8 else 10;
    var d := if prefixed then u[2..] else u;
    if d == [] then None
    else
      match Digits(d, b)
      case None => None
      case Some(v) => var n: int := v; Some(if signed && t[0] == '-' then -n else n)
  }

  // Hexadecimal texts

  const ID_SEPARATORS: set<char> := {':', '.', '-'}

  /** `parseByte`. */
  function ParseByte(s: seq<char>): Option<octet> {
    match WholeNumber(s, 16)
    case None => None
    case Some(v) => if 0 <= v <= 255 then Some(v) else None
  }

  function HexDigit(v: nat): (c: char)
    requires v < 16
    ensures DigitValue(c) == v && c !in ID_SEPARATORS && !IsSpace(c) && c != '-' && c != '+' && c != 'x' && c != 'X'
  {
    if v < 10 then '0' + v as char else 'a' + (v - 10) as char
  }

  function HexByte(v: octet): (s: seq<char>)
    ensures |s| == 2
  {
    [HexDigit(v / 16), HexDigit(v % 16)]
  }

  lemma ParseHexByte(v: octet)
    ensures ParseByte(HexByte(v)) == Some(v)
  {
    var s := HexByte(v);
    assert s[..1] == [s[0]] && s[..1][..0] == [];
    assert Digits(s[..1], 16) == Some(v / 16);
    assert SkipSpaces(s) == s;
  }

  /** `toHex`. */
  function ToHex(b: seq<octet>): (s: seq<char>)
    ensures |s| == 2 * |b|
  {
    if b == [] then [] else HexByte(b[0]) + ToHex(b[1..])
  }

  /** `toId`: the octets with a separator between them. */
  function ToId(b: seq<octet>, sep: char): seq<char> {
    if b == [] then []
    else if |b| == 1 then HexByte(b[0])
    else HexByte(b[0]) + [sep] + ToId(b[1..], sep)
  }

  /** The octets of one token of `fromHex`: two characters each, but for the last. */
  function HexToken(t: seq<char>): Option<seq<octet>> {
    if t == [] then Some([])
    else
      var n := if |t| >= 2 then 2 else 1;
      match ParseByte(t[..n])
      case None => None
      case Some(v) =>
        match HexToken(t[n..])
        case None => None
        case Some(more) => Some([v] + more)
  }

  function HexTokens(ts: seq<seq<char>>): Option<seq<octet>> {
    if ts == [] then Some([])
    else
      match HexToken(ts[0])
      case None => None
      case Some(b) =>
        match HexTokens(ts[1..])
        case None => None
        case Some(more) => Some(b + more)
  }

  /** `fromHex`. */
  function FromHex(s: seq<char>): Option<seq<octet>> {
    if s == [] then None else HexTokens(Tokens(s, ID_SEPARATORS))
  }

  function IdTokens(ts: seq<seq<char>>): Option<seq<octet>> {
    if ts == [] then Some([])
    else
      match ParseByte(ts[0])
      case None => None
      case Some(v) =>
        match IdTokens(ts[1..])
        case None => None
        case Some(more) => Some([v] + more)
  }

  /** `fromId`. */
  function FromId(s: seq<char>): Option<seq<octet>> {
    if |s| < 2 then None else IdTokens(Tokens(s, ID_SEPARATORS))
  }

  lemma {:induction false} ToHexPlain(b: seq<octet>)
    ensures forall c :: c in ToHex(b) ==> c !in ID_SEPARATORS
    decreases |b|
  {
    if b != [] { ToHexPlain(b[1..]); }
  }

  lemma {:induction false} BeforeAll(s: seq<char>, t: seq<char>, stops: set<char>)
    requires (forall c :: c in s ==> c !in stops) && (t == [] || t[0] in stops)
    ensures Before(s + t, stops) == s
    decreases |s|
  {
    if s == [] {
      assert [] + t == t;
    } else {
      assert (s + t)[1..] == s[1..] + t;
      BeforeAll(s[1..], t, stops);
    }
  }

  lemma OneToken(s: seq<char>, seps: set<char>)
    requires s != [] && forall c :: c in s ==> c !in seps
    ensures Tokens(s, seps) == [s]
  {
    BeforeAll(s, [], seps);
    assert s + [] == s && s[0] in s;
    assert s[|s|..] == [];
    assert Tokens([], seps) == [];
  }

  lemma {:induction false} HexTokenRoundTrip(b: seq<octet>)
    ensures HexToken(ToHex(b)) == Some(b)
    decreases |b|
  {
    if b != [] {
      hide ParseByte, HexByte;
      var t := ToHex(b);
      assert t[..2] == HexByte(b[0]) && t[2..] == ToHex(b[1..]);
      ParseHexByte(b[0]);
      HexTokenRoundTrip(b[1..]);
      assert b == [b[0]] + b[1..];
    }
  }

  lemma HexRoundTrip(b: seq<octet>)
    requires b != []
    ensures FromHex(ToHex(b)) == Some(b)
  {
    var s := ToHex(b);
    ToHexPlain(b);
    OneToken(s, ID_SEPARATORS);
    HexTokenRoundTrip(b);
    assert [s][1..] == [] && HexTokens([]) == Some([]);
    assert b + [] == b;
  }

  lemma {:induction false} IdTokensRoundTrip(b: seq<octet>, sep: char)
    requires sep in ID_SEPARATORS && b != []
    ensures IdTokens(Tokens(ToId(b, sep), ID_SEPARATORS)) == Some(b)
    decreases |b|
  {
    hide ParseByte, HexByte;
    var one := HexByte(b[0]);
    HexBytePlain(b[0]);
    ParseHexByte(b[0]);
    if |b| == 1 {
      OneToken(one, ID_SEPARATORS);
      assert [one][1..] == [] && IdTokens([]) == Some([]);
      assert b == [b[0]] + [];
    } else {
      TokenThen(one, sep, ToId(b[1..], sep), ID_SEPARATORS);
      IdTokensRoundTrip(b[1..], sep);
      TokensFirst(one, Tokens(ToId(b[1..], sep), ID_SEPARATORS));
      assert b == [b[0]] + b[1..];
    }
  }

  lemma TokensFirst(t: seq<char>, ts: seq<seq<char>>)
    requires ParseByte(t).Some? && IdTokens(ts).Some?
    ensures IdTokens([t] + ts) == Some([ParseByte(t).value] + IdTokens(ts).value)
  {
    assert ([t] + ts)[1..] == ts;
  }

  lemma TokenThen(t: seq<char>, sep: char, s: seq<char>, seps: set<char>)
    requires t != [] && sep in seps && forall c :: c in t ==> c !in seps
    ensures Tokens(t + [sep] + s, seps) == [t] + Tokens(s, seps)
  {
    var all, after := t + [sep] + s, [sep] + s;
    assert all == t + after;
    BeforeAll(t, after, seps);
    assert all[0] == t[0] && t[0] in t;
    assert all[|t|..] == after && after[1..] == s;
    assert Tokens(after, seps) == Tokens(s, seps);
  }

  lemma HexBytePlain(v: octet)
    ensures forall c :: c in HexByte(v) ==> c !in ID_SEPARATORS
  {
  }

  lemma IdRoundTrip(b: seq<octet>, sep: char)
    requires sep in ID_SEPARATORS && b != []
    ensures FromId(ToId(b, sep)) == Some(b)
  {
    IdTokensRoundTrip(b, sep);
  }
}
