/**
 The Base64 codec of `Binary`: three alphabets that differ in the last two symbols,
 with or without padding. The bit operations of the source are written as arithmetic.
 */
module Base64 {
  import opened Octets

  type sextet = v: int | 0 <= v < 64

  datatype Alphabet = Standard | UrlSafe | Imap

  function Symbol62(a: Alphabet): char { if a.UrlSafe? then '-' else '+' }

  function Symbol63(a: Alphabet): char {
    match a
    case Standard => '/'
    case UrlSafe => '_'
    case Imap => ','
  }

  function Symbol(v: sextet, v62: char, v63: char): char {
    if v < 26 then 'A' + v as char
    else if v < 52 then 'a' + (v - 26) as char
    else if v < 62 then '0' + (v - 52) as char
    else if v == 62 then v62
    else v63
  }

  /** The table `B64`: 10 and 20 above the value mark the symbols of single alphabets. */
  function TableValue(c: char): int {
    if c == '+' then 62
    else if c == ',' then 73
    else if c == '-' then 82
    else if c == '/' then 63
    else if '0' <= c <= '9' then 52 + (c - '0') as int
    else if 'A' <= c <= 'Z' then (c - 'A') as int
    else if c == '_' then 83
    else if 'a' <= c <= 'z' then 26 + (c - 'a') as int
    else -1
  }

  /** What the symbols read so far tell about the alphabet. */
  datatype Safe = Safe(url: bool, both: bool, stand: bool, mail: bool)

  const FRESH := Safe(false, false, false, false)

  datatype Scanned<+T> = Refused | Took(val: T, safe: Safe)

  /** `parseB64`. */
  function ParseSymbol(c: char, safe: Safe): (r: Scanned<sextet>) {
    var v := TableValue(c);
    if v == -1 then Refused
    else if v == 62 then
      if safe.url then Refused else Took(62, safe.(both := true))
    else if v == 63 then
      if safe.url || safe.mail then Refused else Took(63, Safe(false, true, true, false))
    else if v == 73 then
      if safe.url || safe.stand then Refused else Took(63, Safe(false, true, false, true))
    else if v == 82 || v == 83 then
      if safe.both then Refused else Took(v - 20, Safe(true, false, false, false))
    else Took(v, safe)
  }

  function Scan(s: seq<char>, safe: Safe): (r: Scanned<seq<sextet>>)
    ensures r.Took? ==> |r.val| == |s|
  {
    if s == [] then Took([], safe)
    else
      match ParseSymbol(s[0], safe)
      case Refused => Refused
      case Took(v, safe') =>
        match Scan(s[1..], safe')
        case Refused => Refused
        case Took(vs, last) => Took([v] + vs, last)
  }

  lemma {:induction false} ScanAppend(s: seq<char>, t: seq<char>, safe: Safe)
    ensures Scan(s, safe).Refused? ==> Scan(s + t, safe).Refused?
    ensures Scan(s, safe).Took? ==>
      var a := Scan(s, safe);
      var b := Scan(t, a.safe);
      Scan(s + t, safe) == if b.Refused? then Refused else Took(a.val + b.val, b.safe)
    decreases |s|
  {
    if s == [] {
      assert [] + t == t;
      var b := Scan(t, safe);
      assert b.Took? ==> [] + b.val == b.val;
    } else {
      assert (s + t)[1..] == s[1..] + t;
      var one := ParseSymbol(s[0], safe);
      if one.Took? {
        ScanAppend(s[1..], t, one.safe);
        var a := Scan(s[1..], one.safe);
        if a.Took? {
          var b := Scan(t, a.safe);
          assert b.Took? ==> [one.val] + (a.val + b.val) == ([one.val] + a.val) + b.val;
        }
      }
    }
  }

  // The grouping of 6 bits into octets

  function Three(a: sextet, b: sextet, c: sextet, d: sextet): (r: seq<octet>)
    ensures |r| == 3
  {
    [a * 4 + b / 16, b % 16 * 16 + c / 4, c % 4 * 64 + d]
  }

  /** Whole groups of 4, and then 1 or 2 octets from a group of 2 or 3. */
  function ToOctets(v: seq<sextet>): seq<octet> {
    if |v| >= 4 then
      Three(v[0], v[1], v[2], v[3]) + ToOctets(v[4..])
    else if |v| == 3 then Three(v[0], v[1], v[2], 0)[..2]
    else if |v| == 2 then Three(v[0], v[1], 0, 0)[..1]
    else []
  }

  function Group(a: octet, b: octet, c: octet): (g: seq<sextet>)
    ensures |g| == 4 && (c == 0 ==> g[3] == 0) && (b == 0 && c == 0 ==> g[2] == 0)
  {
    [a / 4, a % 4 * 16 + b / 16, b % 16 * 4 + c / 64, c % 64]
  }

  function ToSextets(b: seq<octet>): seq<sextet> {
    if |b| >= 3 then Group(b[0], b[1], b[2]) + ToSextets(b[3..])
    else if |b| == 2 then Group(b[0], b[1], 0)[..3]
    else if |b| == 1 then Group(b[0], 0, 0)[..2]
    else []
  }

  lemma {:induction false} ToOctetsAppend(v: seq<sextet>, w: seq<sextet>)
    requires |v| % 4 == 0
    ensures ToOctets(v + w) == ToOctets(v) + ToOctets(w)
    decreases |v|
  {
    if v == [] {
      assert [] + w == w;
    } else {
      assert (v + w)[4..] == v[4..] + w;
      ToOctetsAppend(v[4..], w);
    }
  }

  lemma {:induction false} ToSextetsAppend(b: seq<octet>, c: seq<octet>)
    requires |b| % 3 == 0
    ensures ToSextets(b + c) == ToSextets(b) + ToSextets(c)
    decreases |b|
  {
    if b == [] {
      assert [] + c == c;
    } else {
      assert (b + c)[3..] == b[3..] + c;
      ToSextetsAppend(b[3..], c);
    }
  }

  lemma ThreeOfGroup(a: octet, b: octet, c: octet)
    ensures var g := Group(a, b, c); Three(g[0], g[1], g[2], g[3]) == [a, b, c]
  {
  }

  lemma FourFirst(g: seq<sextet>, rest: seq<sextet>)
    requires |g| == 4
    ensures ToOctets(g + rest) == Three(g[0], g[1], g[2], g[3]) + ToOctets(rest)
    ensures |g + rest| % 4 == |rest| % 4
  {
    hide Three;
    assert (g + rest)[4..] == rest;
  }

  lemma {:induction false} OctetsOfSextets(b: seq<octet>)
    ensures ToOctets(ToSextets(b)) == b
    ensures |ToSextets(b)| % 4 == (if |b| % 3 == 0 then 0 else |b| % 3 + 1)
    decreases |b|
  {
    hide Three, Group, ToOctets;
    if |b| >= 3 {
      var g, rest := Group(b[0], b[1], b[2]), ToSextets(b[3..]);
      ThreeOfGroup(b[0], b[1], b[2]);
      OctetsOfSextets(b[3..]);
      FourFirst(g, rest);
      assert ToSextets(b) == g + rest;
      assert b == [b[0], b[1], b[2]] + b[3..];
    } else {
      LastOctets(b);
    }
  }

  lemma LastOctets(b: seq<octet>)
    requires |b| < 3
    ensures ToOctets(ToSextets(b)) == b
    ensures |ToSextets(b)| == (if |b| == 0 then 0 else |b| + 1)
  {
    hide Three, Group;
    if |b| == 1 { ThreeOfGroup(b[0], 0, 0); }
    if |b| == 2 { ThreeOfGroup(b[0], b[1], 0); }
  }

  // Text

  function Symbols(v: seq<sextet>, v62: char, v63: char): (s: seq<char>)
    ensures |s| == |v|
  {
    if v == [] then [] else [Symbol(v[0], v62, v63)] + Symbols(v[1..], v62, v63)
  }

  lemma {:induction false} SymbolsAppend(v: seq<sextet>, w: seq<sextet>, v62: char, v63: char)
    ensures Symbols(v + w, v62, v63) == Symbols(v, v62, v63) + Symbols(w, v62, v63)
    decreases |v|
  {
    if v == [] {
      assert [] + w == w;
    } else {
      assert (v + w)[1..] == v[1..] + w;
      SymbolsAppend(v[1..], w, v62, v63);
    }
  }

  /** The padding that fills the last group. */
  function Padding(n: nat): seq<char> {
    if n % 3 == 1 then "==" else if n % 3 == 2 then "=" else ""
  }

  /** `toBase64`. */
  function Encode(b: seq<octet>, pad: bool, v62: char, v63: char): seq<char> {
    Symbols(ToSextets(b), v62, v63) + if pad then Padding(|b|) else ""
  }

  /** The symbols of a text without the padding of its last group. */
  function Body(s: seq<char>): (b: seq<char>)
    ensures |b| <= |s|
  {
    if |s| % 4 == 0 && |s| > 0 && s[|s| - 1] == '=' then
      if s[|s| - 2] == '=' then s[..|s| - 2] else s[..|s| - 1]
    else if |s| % 4 == 3 && s[|s| - 1] == '=' then s[..|s| - 1]
    else s
  }

  predicate LengthOk(s: seq<char>, pad: bool) {
    s == [] || (|s| % 4 != 1 && (pad ==> |s| % 4 == 0))
  }

  /** `fromBase64`. */
  function Decode(s: seq<char>, pad: bool): Option<seq<octet>> {
    if !LengthOk(s, pad) then None
    else
      match Scan(Body(s), FRESH)
      case Refused => None
      case Took(vs, _) => Some(ToOctets(vs))
  }

  // Which texts are accepted

  predicate In(c: char, a: Alphabet) {
    c == Symbol62(a) || c == Symbol63(a) || '0' <= c <= '9' || 'A' <= c <= 'Z' || 'a' <= c <= 'z'
  }

  predicate AllIn(s: seq<char>, a: Alphabet) { forall c :: c in s ==> In(c, a) }

  /** The alphabets that the symbols read so far leave open. */
  predicate Open(a: Alphabet, safe: Safe) {
    && (safe.url ==> a.UrlSafe?)
    && (safe.both ==> !a.UrlSafe?)
    && (safe.stand ==> a.Standard?)
    && (safe.mail ==> a.Imap?)
  }

  predicate Reachable(safe: Safe) {
    || safe == FRESH
    || safe == Safe(true, false, false, false)
    || safe == Safe(false, true, false, false)
    || safe == Safe(false, true, true, false)
    || safe == Safe(false, true, false, true)
  }

  lemma SymbolOpens(c: char, safe: Safe, a: Alphabet)
    requires Reachable(safe)
    ensures ParseSymbol(c, safe).Took? ==> Reachable(ParseSymbol(c, safe).safe)
    ensures Open(a, safe) && In(c, a) <==> ParseSymbol(c, safe).Took? && Open(a, ParseSymbol(c, safe).safe)
  {
  }

  /** The scanner accepts the texts over a single alphabet, in whatever order its symbols
      come, and no others. */
  lemma {:induction false} ScanAccepts(s: seq<char>, safe: Safe)
    requires Reachable(safe)
    ensures Scan(s, safe).Took? <==> exists a :: Open(a, safe) && AllIn(s, a)
    decreases |s|
  {
    if s == [] {
      assert Open(if safe.url then UrlSafe else if safe.mail then Imap else Standard, safe);
    } else {
      var one := ParseSymbol(s[0], safe);
      forall a ensures Open(a, safe) && AllIn(s, a)
                  <==> one.Took? && Open(a, one.safe) && AllIn(s[1..], a) {
        SymbolOpens(s[0], safe, a);
        assert s == [s[0]] + s[1..];
      }
      if one.Took? {
        SymbolOpens(s[0], safe, Standard);
        ScanAccepts(s[1..], one.safe);
      }
    }
  }

  /** A text is accepted exactly when its length is possible and its symbols all belong to
      one alphabet. */
  lemma DecodeAccepts(s: seq<char>, pad: bool)
    ensures Decode(s, pad).Some? <==> LengthOk(s, pad) && exists a :: AllIn(Body(s), a)
  {
    ScanAccepts(Body(s), FRESH);
    forall a ensures Open(a, FRESH) {}
    if LengthOk(s, pad) {
      assert Decode(s, pad).Some? <==> Scan(Body(s), FRESH).Took?;
      if a :| AllIn(Body(s), a) { assert Open(a, FRESH) && AllIn(Body(s), a); }
    }
  }

  lemma SymbolParse(v: sextet, a: Alphabet, safe: Safe)
    requires Reachable(safe) && Open(a, safe)
    ensures var r := ParseSymbol(Symbol(v, Symbol62(a), Symbol63(a)), safe);
      r.Took? && r.val == v && Reachable(r.safe) && Open(a, r.safe)
    ensures Symbol(v, Symbol62(a), Symbol63(a)) != '='
  {
  }

  lemma {:induction false} ScanSymbols(v: seq<sextet>, a: Alphabet, safe: Safe)
    requires Reachable(safe) && Open(a, safe)
    ensures var r := Scan(Symbols(v, Symbol62(a), Symbol63(a)), safe); r.Took? && r.val == v
    ensures '=' !in Symbols(v, Symbol62(a), Symbol63(a))
    decreases |v|
  {
    if v != [] {
      SymbolParse(v[0], a, safe);
      var s := Symbols(v, Symbol62(a), Symbol63(a));
      ScanSymbols(v[1..], a, ParseSymbol(s[0], safe).safe);
      assert s[1..] == Symbols(v[1..], Symbol62(a), Symbol63(a));
    }
  }

  lemma BodyOfPadded(s: seq<char>, p: seq<char>, n: nat)
    requires '=' !in s && |s| % 4 == (if n % 3 == 0 then 0 else n % 3 + 1)
    requires p == Padding(n) || p == ""
    ensures Body(s + p) == s
    ensures LengthOk(s + p, p == Padding(n))
  {
    var r := n % 3;
    hide Padding;
    assert p == "" || p == (if r == 1 then "==" else if r == 2 then "=" else "") by { PaddingIs(n); }
    assert p == Padding(n) ==> |p| == (if r == 0 then 0 else 3 - r) by { PaddingIs(n); }
    assert s + "" == s;
    assert |s| > 0 ==> s[|s| - 1] in s;
    assert |s| > 1 ==> s[|s| - 2] in s;
    PaddedBody(s, p);
  }

  lemma PaddingIs(n: nat)
    ensures Padding(n) == if n % 3 == 1 then "==" else if n % 3 == 2 then "=" else ""
  {
  }

  lemma PaddedBody(s: seq<char>, p: seq<char>)
    requires '=' !in s && (p == "" || (p == "=" && |s| % 4 == 3) || (p == "==" && |s| % 4 == 2))
    ensures Body(s + p) == s
  {
    var t := s + p;
    assert |s| > 0 ==> s[|s| - 1] in s;
    assert |s| > 1 ==> s[|s| - 2] in s;
    if p == "" {
      assert t == s;
    } else if p == "=" {
      assert |t| % 4 == 0 && t[|t| - 1] == '=' && t[|t| - 2] == s[|s| - 1];
      assert t[..|t| - 1] == s;
    } else {
      assert |t| % 4 == 0 && t[|t| - 1] == '=' && t[|t| - 2] == '=';
      assert t[..|t| - 2] == s;
    }
  }

  /** Decoding what was encoded gives the octets back, for every alphabet; a text written
      without padding is read without it. */
  lemma Base64RoundTrip(b: seq<octet>, a: Alphabet, pad: bool, readPad: bool)
    requires readPad ==> pad
    ensures Decode(Encode(b, pad, Symbol62(a), Symbol63(a)), readPad) == Some(b)
  {
    OctetsOfSextets(b);
    ScanSymbols(ToSextets(b), a, FRESH);
    var s := Symbols(ToSextets(b), Symbol62(a), Symbol63(a));
    BodyOfPadded(s, if pad then Padding(|b|) else "", |b|);
  }

  // What is written, symbol by symbol

  const UPPER := "ABCDEFGHIJKLMNOPQRSTUVWXYZ"
  const LOWER := "abcdefghijklmnopqrstuvwxyz"
  const DIGITS := "0123456789"

  /** The octet with an index, and zeros behind the last one. */
  function OctetAt(b: seq<octet>, i: nat): nat { if i < |b| then b[i] else 0 }

  /** The 24 bits of a group of three octets. */
  function GroupBits(b: seq<octet>, g: nat): nat {
    0x1_0000 * OctetAt(b, 3 * g) + 0x100 * OctetAt(b, 3 * g + 1) + OctetAt(b, 3 * g + 2)
  }

  /** The six bits with an index in a group. */
  function SixBits(v: nat, j: nat): nat
    requires j < 4
  {
    if j == 0 then v / 0x4_0000 % 64 else if j == 1 then v / 0x1000 % 64 else if j == 2 then v / 64 % 64 else v % 64
  }

  /** Four numbers of six bits, and the bits of their sum. */
  lemma FourSixes(x: nat, y: nat, z: nat, w: nat, v: nat)
    requires x < 64 && y < 64 && z < 64 && w < 64 && v == 0x4_0000 * x + 0x1000 * y + 64 * z + w
    ensures SixBits(v, 0) == x && SixBits(v, 1) == y && SixBits(v, 2) == z && SixBits(v, 3) == w
  {
    assert v / 0x4_0000 == x;
    assert v / 0x1000 == 64 * x + y;
    assert v / 64 == 0x1000 * x + 64 * y + z;
  }

  lemma GroupSix(a: octet, b: octet, c: octet, j: nat)
    requires j < 4
    ensures Group(a, b, c)[j] == SixBits(0x1_0000 * a + 0x100 * b + c, j)
  {
    hide SixBits;
    var p, q, r, s, t, u := a / 4, a % 4, b / 16, b % 16, c / 64, c % 64;
    assert a == 4 * p + q && b == 16 * r + s && c == 64 * t + u;
    FourSixes(p, q * 16 + r, s * 4 + t, u, 0x1_0000 * a + 0x100 * b + c);
  }

  /** The values of the symbols are the bits of the octets, six at a time. */
  lemma {:induction false} SextetAt(b: seq<octet>, k: nat)
    requires k < |ToSextets(b)|
    ensures ToSextets(b)[k] == SixBits(GroupBits(b, k / 4), k % 4)
    decreases |b|
  {
    hide Group, SixBits;
    if |b| >= 3 {
      if k < 4 {
        GroupSix(b[0], b[1], b[2], k);
      } else {
        SextetAt(b[3..], k - 4);
        assert k / 4 == (k - 4) / 4 + 1 && k % 4 == (k - 4) % 4;
        GroupNext(b, k / 4);
      }
    } else {
      GroupSix(OctetAt(b, 0), OctetAt(b, 1), 0, k);
      assert k / 4 == 0;
    }
  }

  lemma GroupNext(b: seq<octet>, g: nat)
    requires |b| >= 3 && g > 0
    ensures GroupBits(b, g) == GroupBits(b[3..], g - 1)
  {
  }

  lemma {:induction false} SextetCount(b: seq<octet>)
    ensures |ToSextets(b)| == (8 * |b| + 5) / 6
    decreases |b|
  {
    hide Group;
    if |b| >= 3 { SextetCount(b[3..]); }
  }

  lemma {:induction false} SymbolAt(v: seq<sextet>, v62: char, v63: char, k: nat)
    requires k < |v|
    ensures Symbols(v, v62, v63)[k] == Symbol(v[k], v62, v63)
    decreases k
  {
    hide Symbol;
    if k > 0 { SymbolAt(v[1..], v62, v63, k - 1); }
  }

  lemma AlphabetLetters()
    ensures |UPPER| == |LOWER| == 26 && |DIGITS| == 10
    ensures forall i :: 0 <= i < 26 ==> UPPER[i] == 'A' + i as char
    ensures forall i :: 0 <= i < 26 ==> LOWER[i] == 'a' + i as char
    ensures forall i :: 0 <= i < 10 ==> DIGITS[i] == '0' + i as char
  {
  }

  /** The alphabet of section 4 of RFC 4648, with the last two symbols of the caller. */
  predicate IsSymbol(c: char, v: nat, v62: char, v63: char) {
    if v < 26 then c == UPPER[v]
    else if v < 52 then c == LOWER[v - 26]
    else if v < 62 then c == DIGITS[v - 52]
    else c == if v == 62 then v62 else v63
  }

  /** Every symbol that is written stands for six bits of the octets, and a padded text has
      whole groups of four, filled with equals signs. */
  lemma EncodedAt(b: seq<octet>, pad: bool, v62: char, v63: char, k: nat)
    requires k < |Encode(b, pad, v62, v63)|
    ensures var s, n := Encode(b, pad, v62, v63), (8 * |b| + 5) / 6;
      && |s| == (if pad then (|b| + 2) / 3 * 4 else n)
      && (if k < n then IsSymbol(s[k], SixBits(GroupBits(b, k / 4), k % 4), v62, v63) else s[k] == '=')
  {
    hide GroupBits, ToSextets, Symbols;
    SextetCount(b);
    AlphabetLetters();
    var vs := ToSextets(b);
    if k < |vs| {
      SextetAt(b, k);
      SymbolAt(vs, v62, v63, k);
    }
  }
}
