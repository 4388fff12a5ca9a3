/**
 JSON strings: escaping by `strToStr`, and reading by `getStr`.

 A text is a sequence of octets, written as characters below 256. The octet 0 ends it.
 Reading is written on what is left of the text, and gives back what is left behind.
 */
module JsonText {
  import opened Octets

  type text = seq<char>

  datatype Parsed<+T> = PFail | POk(val: T, rest: text)

  /** `isEOF` on a buffer in memory. */
  predicate Eof(s: text) { s == [] || s[0] == '\0' }

  // ---------------------------------------------------------------- code points

  /** A Unicode scalar value. */
  predicate Scalar(c: nat) { c < 0xd800 || 0xe000 <= c < 0x11_0000 }

  function Octet(n: nat): char
    requires n < 256
  {
    n as char
  }

  /** The UTF-8 form of section 3 of RFC 3629. */
  function Utf8(c: nat): (s: text)
    requires Scalar(c)
  {
    if c < 0x80 then [Octet(c)]
    else if c < 0x800 then [Octet(0xc0 + c / 64), Octet(0x80 + c % 64)]
    else if c < 0x1_0000 then [Octet(0xe0 + c / 4096), Octet(0x80 + c / 64 % 64), Octet(0x80 + c % 64)]
    else [Octet(0xf0 + c / 262144), Octet(0x80 + c / 4096 % 64), Octet(0x80 + c / 64 % 64), Octet(0x80 + c % 64)]
  }

  predicate Scalars(cs: seq<nat>) { forall i :: 0 <= i < |cs| ==> Scalar(cs[i]) }

  /** A well-formed UTF-8 text, given by its code points. */
  function Utf8Text(cs: seq<nat>): text
    requires Scalars(cs)
  {
    if cs == [] then [] else Utf8(cs[0]) + Utf8Text(cs[1..])
  }

  // ---------------------------------------------------------------- writing

  function HexDigit(v: nat): char
    requires v < 16
  {
    if v < 10 then '0' + v as char else 'a' + (v - 10) as char
  }

  /** `jUtf16`. */
  function Escape16(v: nat): (s: text)
    requires v < 0x1_0000
    ensures |s| == 6
  {
    "\\u" + [HexDigit(v / 4096), HexDigit(v / 256 % 16), HexDigit(v / 16 % 16), HexDigit(v % 16)]
  }

  /** One UTF-16 unit, or a surrogate pair with the masks the source uses. */
  function EscapeCode(val: nat): text {
    if val < 0x1_0000 then Escape16(val)
    else
      var v := val - 0x1_0000;
      Escape16(BitOr(BitAnd(v / 1024, 0xbff), 0xd800) % 0x1_0000) + Escape16(BitOr(BitAnd(v, 0xbff), 0xdc00) % 0x1_0000)
  }

  predicate Follows(c: char) { 0x80 <= c as int < 0xc0 }

  function Low6(c: char): nat { c as int % 64 }

  /** The characters that have an escape of their own. */
  function ShortEscape(c: char): text {
    if c == '\\' || c == '"' || c == '/' then ['\\', c]
    else if c == Octet(8) then "\\b"
    else if c == Octet(12) then "\\f"
    else if c == '\n' then "\\n"
    else if c == '\r' then "\\r"
    else if c == '\t' then "\\t"
    else []
  }

  /** The octets behind the first one of a character, by its leading bits; 4 if there is no
      such character. */
  function Extra(v: nat): nat {
    if v < 0x80 then 0
    else if 0xc0 <= v < 0xe0 then 1
    else if 0xe0 <= v < 0xf0 then 2
    else if 0xf0 <= v < 0xf8 then 3
    else 4
  }

  /** The bits of the first octet. */
  function LeadBits(v: nat): nat {
    if v < 0x80 then v else if v < 0xe0 then v % 32 else if v < 0xf0 then v % 16 else v % 8
  }

  predicate AllFollow(s: text, n: nat) { n < |s| && forall i :: 1 <= i <= n ==> Follows(s[i]) }

  function Join6(val: nat, s: text): nat
    decreases |s|
  {
    if s == [] then val else Join6(val * 64 + Low6(s[0]), s[1..])
  }

  /** The escaped form of a text without the quotation marks, if it is proper UTF-8. */
  function EscapeText(s: text): (r: Option<text>) {
    if s == [] then Some([])
    else
      var v := s[0] as int;
      var n := Extra(v);
      if ShortEscape(s[0]) != [] then Then(ShortEscape(s[0]), EscapeText(s[1..]))
      else if 0x20 <= v < 0x7f then Then([s[0]], EscapeText(s[1..]))
      else if n > 3 || !AllFollow(s, n) then None
      else Then(EscapeCode(Join6(LeadBits(v), s[1..1 + n])), EscapeText(s[1 + n..]))
  }

  function Then(s: text, r: Option<text>): Option<text> { if r.None? then None else Some(s + r.value) }

  /** `strToStr`: text that is not UTF-8 is passed as it is. */
  function StrToStr(s: text): text {
    var r := EscapeText(s);
    "\"" + (if r.Some? then r.value else s) + "\""
  }

  // ---------------------------------------------------------------- reading

  /** The value of a hexadecimal digit, 16 for other characters. */
  function HexValue(c: char): (v: nat)
    ensures v <= 16
  {
    if '0' <= c <= '9' then (c - '0') as int
    else if 'a' <= c <= 'f' then 10 + (c - 'a') as int
    else if 'A' <= c <= 'F' then 10 + (c - 'A') as int
    else 16
  }

  /** `uToVal`. */
  function Read4(s: text): (r: Option<nat>)
    ensures r.Some? ==> |s| >= 4 && r.value < 0x1_0000
  {
    if |s| < 4 || exists i :: 0 <= i < 4 && HexValue(s[i]) == 16 then None
    else Some(HexValue(s[0]) * 4096 + HexValue(s[1]) * 256 + HexValue(s[2]) * 16 + HexValue(s[3]))
  }

  function Power64(n: nat): (p: nat)
    ensures p > 0
  {
    if n == 0 then 1 else 64 * Power64(n - 1)
  }

  /** `n` octets with 6 bits each. */
  function Tail6(val: nat, n: nat): text {
    if n == 0 then [] else [Octet(0x80 + val / Power64(n - 1) % 64)] + Tail6(val, n - 1)
  }

  /** The UTF-8 octets `uProc` appends for a code. */
  function PutUtf8(val: nat): text
    requires val < 0x20_0000
  {
    if val < 0x80 then [Octet(val)]
    else if val < 0x800 then [Octet(0xc0 + val / 64 % 32)] + Tail6(val, 1)
    else if val < 0x1_0000 then [Octet(0xe0 + val / 4096 % 16)] + Tail6(val, 2)
    else [Octet(0xf0 + val / 262144 % 8)] + Tail6(val, 3)
  }

  datatype Unit = UBad | UHigh(w1: nat, rest: text) | UChar(out: text, rest: text)

  /** `uProc`: the four digits of an escape, after the first half of a surrogate pair or
      without one. */
  function UProc(s: text, w1: Option<nat>): (u: Unit)
    requires w1.Some? ==> w1.value < 1024
    ensures u.UHigh? ==> u.w1 < 1024
    ensures !u.UBad? ==> |u.rest| < |s|
  {
    match Read4(s)
    case None => UBad
    case Some(v) =>
      if w1.Some? then
        if v >= 0xe000 || v < 0xdc00 then UBad
        else UChar(PutUtf8(w1.value * 1024 + (v - 0xdc00) + 0x1_0000), s[4..])
      else if v < 0xd800 || v >= 0xe000 then UChar(PutUtf8(v), s[4..])
      else if v < 0xdc00 then UHigh(v - 0xd800, s[4..])
      else UBad
  }

  function PrependText(out: text, r: Parsed<text>): Parsed<text> {
    if r.PFail? then PFail else POk(out + r.val, r.rest)
  }

  /** `checkUTF8`: the octets of one character, 0 if they are not UTF-8. */
  function RawLength(s: text): (n: nat)
    requires s != []
    ensures n <= |s|
  {
    var v := s[0] as int;
    var n := if v < 0xc0 then 0 else if v < 0xe0 then 1 else if v < 0xf0 then 2 else 3;
    if 0x80 <= v < 0xc0 || !AllFollow(s, n) then 0 else 1 + n
  }

  /** The character an escape of one letter stands for. */
  function Unescape(c: char): Option<char> {
    if c == '"' || c == '\\' || c == '/' then Some(c)
    else if c == 'b' then Some(Octet(8))
    else if c == 'f' then Some(Octet(12))
    else if c == 'n' then Some('\n')
    else if c == 'r' then Some('\r')
    else if c == 't' then Some('\t')
    else None
  }

  /** `getStr` behind the quotation mark; `w1` is the first half of a surrogate pair. */
  function StrBody(s: text, w1: Option<nat>): (r: Parsed<text>)
    requires w1.Some? ==> w1.value < 1024
    ensures r.POk? ==> |r.rest| < |s|
    decreases |s|
  {
    if Eof(s) || (w1.Some? && s[0] != '\\') then PFail
    else if s[0] == '"' then POk([], s[1..])
    else if s[0] == '\\' then
      var t := s[1..];
      if Eof(t) || (w1.Some? && t[0] != 'u') then PFail
      else if t[0] == 'u' then
        var u := UProc(t[1..], w1);
        if u.UBad? then PFail
        else if u.UHigh? then StrBody(u.rest, Some(u.w1))
        else PrependText(u.out, StrBody(u.rest, None))
      else
        var c := Unescape(t[0]);
        if c.None? then PFail else PrependText([c.value], StrBody(t[1..], None))
    else
      var n := RawLength(s);
      if n == 0 then PFail else PrependText(s[..n], StrBody(s[n..], None))
  }

  // ---------------------------------------------------------------- a string comes back

  lemma Tail6Is(c: nat)
    ensures Tail6(c, 1) == [Octet(0x80 + c % 64)]
    ensures Tail6(c, 2) == [Octet(0x80 + c / 64 % 64), Octet(0x80 + c % 64)]
    ensures Tail6(c, 3) == [Octet(0x80 + c / 4096 % 64), Octet(0x80 + c / 64 % 64), Octet(0x80 + c % 64)]
  {
    assert Power64(0) == 1 && Power64(1) == 64 && Power64(2) == 4096;
    assert Tail6(c, 1) == [Octet(0x80 + c % 64)];
    assert Tail6(c, 2) == [Octet(0x80 + c / 64 % 64)] + Tail6(c, 1);
    assert Tail6(c, 3) == [Octet(0x80 + c / 4096 % 64)] + Tail6(c, 2);
  }

  lemma PutUtf8Is(c: nat)
    requires Scalar(c)
    ensures PutUtf8(c) == Utf8(c)
  {
    hide Tail6;
    Tail6Is(c);
    assert c < 0x800 ==> c / 64 % 32 == c / 64;
    assert c < 0x1_0000 ==> c / 4096 % 16 == c / 4096;
    assert c / 262144 % 8 == c / 262144;
  }

  lemma HexDigitValue(v: nat)
    requires v < 16
    ensures HexValue(HexDigit(v)) == v
  {
  }

  lemma Read4Back(v: nat, rest: text)
    requires v < 0x1_0000
    ensures Read4(Escape16(v)[2..] + rest) == Some(v) && (Escape16(v)[2..] + rest)[4..] == rest
    ensures Escape16(v)[..2] == "\\u"
  {
    var h := Escape16(v)[2..];
    HexDigitValue(v / 4096);
    HexDigitValue(v / 256 % 16);
    HexDigitValue(v / 16 % 16);
    HexDigitValue(v % 16);
    assert h == [HexDigit(v / 4096), HexDigit(v / 256 % 16), HexDigit(v / 16 % 16), HexDigit(v % 16)];
    hide HexDigit, HexValue;
    Nibbles(v);
    var s := h + rest;
    assert s[0] == h[0] && s[1] == h[1] && s[2] == h[2] && s[3] == h[3];
  }

  lemma Nibbles(v: nat)
    requires v < 0x1_0000
    ensures v == v / 4096 * 4096 + v / 256 % 16 * 256 + v / 16 % 16 * 16 + v % 16
  {
    var a := v / 16;
    var b := a / 16;
    assert v / 256 == b && v / 4096 == b / 16;
  }

  /** An escape of four digits is read as one unit. */
  lemma UnitBack(v: nat, rest: text, w1: Option<nat>)
    requires v < 0x1_0000 && (w1.Some? ==> w1.value < 1024)
    ensures var u := UProc(Escape16(v)[2..] + rest, w1);
      StrBody(Escape16(v) + rest, w1)
      == if u.UBad? then PFail
         else if u.UHigh? then StrBody(u.rest, Some(u.w1))
         else PrependText(u.out, StrBody(u.rest, None))
  {
    Read4Back(v, rest);
    var s := Escape16(v) + rest;
    assert s[0] == '\\' && s[1..][0] == 'u';
    assert s[1..][1..] == Escape16(v)[2..] + rest;
  }

  function Two(k: nat): (p: nat)
    ensures p > 0
  {
    if k == 0 then 1 else 2 * Two(k - 1)
  }

  lemma StepBits(a: nat, b: nat)
    ensures BitAnd(a, b) == 2 * BitAnd(a / 2, b / 2) + (a % 2) * (b % 2)
    ensures BitOr(a, b) == 2 * BitOr(a / 2, b / 2) + if a % 2 + b % 2 == 0 then 0 else 1
  {
  }

  /** The low bit passes a mask that has it, and is kept in a word that has it clear. */
  lemma MaskStep(v: nat, m: nat, d: nat)
    ensures BitOr(BitAnd(v, 2 * m + 1), 2 * d) == 2 * BitOr(BitAnd(v / 2, m), d) + v % 2
  {
    hide BitAnd, BitOr;
    StepBits(v, 2 * m + 1);
    StepBits(BitAnd(v, 2 * m + 1), 2 * d);
  }

  /** `top` with `k` ones behind it. */
  function Mask(top: nat, k: nat): nat { if k == 0 then top else 2 * Mask(top, k - 1) + 1 }

  lemma {:induction false} MaskLow(v: nat, high: nat, top: nat, d: nat, dp: nat, k: nat)
    requires high == v / Two(k) && dp == d * Two(k) && BitOr(BitAnd(high, top), d) == d
    ensures BitOr(BitAnd(v, Mask(top, k)), dp) == dp + v % Two(k)
    decreases k
  {
    hide BitAnd, BitOr;
    if k > 0 {
      var p := Two(k - 1);
      DivTwice(v, p);
      assert dp == 2 * (d * p);
      MaskLow(v / 2, high, top, d, dp / 2, k - 1);
      MaskStep(v, Mask(top, k - 1), dp / 2);
      ModDouble(v, p);
    }
  }

  lemma DivTwice(a: nat, p: nat)
    requires p > 0
    ensures a / 2 / p == a / (2 * p)
  {
    ModDouble(a, p);
    var q, r := a / 2 / p, a / 2 % p;
    assert a / 2 == q * p + r;
    assert a == (2 * p) * q + (2 * r + a % 2);
    DivUnique(a, 2 * p, q);
  }

  lemma ModDouble(v: nat, m: nat)
    requires m > 0
    ensures v % (2 * m) == 2 * (v / 2 % m) + v % 2
  {
    var h := v / 2;
    var q, r := h / m, h % m;
    assert h == q * m + r;
    assert v == (2 * m) * q + (2 * r + v % 2) by { assert v == 2 * h + v % 2; }
    ModUnique(v, 2 * m, q, 2 * r + v % 2);
  }

  /** With the bits that are set anyway, the mask 0xbff acts as 0x3ff. */
  lemma MaskActs(v: nat)
    ensures BitOr(BitAnd(v, 0xbff), 0xdc00) == 0xdc00 + v % 1024
    ensures v < 1024 ==> BitOr(BitAnd(v, 0xbff), 0xd800) == 0xd800 + v
  {
    hide BitAnd, BitOr;
    MaskIs();
    HighBits(v / 1024);
    MaskLow(v, v / 1024, 2, 55, 0xdc00, 10);
    if v < 1024 { MaskLow(v, 0, 2, 54, 0xd800, 10); }
  }

  lemma MaskIs()
    ensures Two(10) == 1024 && Mask(2, 10) == 0xbff
  {
    assert Two(2) == 4 && Two(4) == 16 && Two(6) == 64 && Two(8) == 256;
    assert Mask(2, 2) == 11 && Mask(2, 4) == 47 && Mask(2, 6) == 191 && Mask(2, 8) == 767;
  }

  lemma HighBits(v: nat)
    ensures BitOr(BitAnd(v, 2), 55) == 55
    ensures v == 0 ==> BitOr(BitAnd(v, 2), 54) == 54
  {
    StepBits(v, 2);
    StepBits(v / 2, 1);
    OrHigh();
  }

  lemma OrHigh()
    ensures BitOr(2, 55) == 55 && BitOr(0, 55) == 55 && BitOr(0, 54) == 54
  {
    StepBits(2, 55);
    StepBits(1, 27);
  }

  /** The escaped form of one character. */
  function EscapeChar(c: nat): text
    requires Scalar(c)
  {
    if c < 0x80 && ShortEscape(Octet(c)) != [] then ShortEscape(Octet(c))
    else if 0x20 <= c < 0x7f then [Octet(c)]
    else EscapeCode(c)
  }

  /** The octets of a character are recognised and joined to its code. */
  lemma JoinBack(c: nat)
    requires Scalar(c)
    ensures var s := Utf8(c); var v := s[0] as int;
      Extra(v) == |s| - 1 && AllFollow(s, |s| - 1) && Join6(LeadBits(v), s[1..]) == c
    ensures c >= 0x80 ==> Utf8(c)[0] as int >= 0xc0
  {
    if c < 0x80 {
      assert Utf8(c)[1..] == [] && Join6(c, []) == c;
    } else if c < 0x800 {
      var s := [Octet(0xc0 + c / 64), Octet(0x80 + c % 64)];
      JoinOne(c / 64, s[1..]);
    } else if c < 0x1_0000 {
      JoinBack3(c);
    } else {
      JoinBack4(c);
    }
  }

  lemma JoinBack3(c: nat)
    requires 0x800 <= c < 0x1_0000 && Scalar(c)
    ensures var s := Utf8(c); var v := s[0] as int;
      0xe0 <= v < 0xf0 && AllFollow(s, 2) && Join6(LeadBits(v), s[1..]) == c
  {
    ThreeParts(c / 4096, c / 64 % 64, c % 64);
    ThreeSextets(c);
  }

  lemma ThreeSextets(c: nat)
    ensures c == (c / 4096 * 64 + c / 64 % 64) * 64 + c % 64
  {
    assert c / 4096 == c / 64 / 64;
  }

  lemma ThreeParts(a: nat, b: nat, d: nat)
    requires a < 16 && b < 64 && d < 64
    ensures var s := [Octet(0xe0 + a), Octet(0x80 + b), Octet(0x80 + d)];
      var v := s[0] as int;
      0xe0 <= v < 0xf0 && AllFollow(s, 2) && Join6(LeadBits(v), s[1..]) == (a * 64 + b) * 64 + d
  {
    var t := [Octet(0x80 + b), Octet(0x80 + d)];
    assert [Octet(0xe0 + a), Octet(0x80 + b), Octet(0x80 + d)][1..] == t;
    assert Low6(Octet(0x80 + b)) == b && Low6(Octet(0x80 + d)) == d;
    JoinTwo(a, t);
  }

  lemma JoinBack4(c: nat)
    requires 0x1_0000 <= c < 0x11_0000
    ensures var s := Utf8(c); var v := s[0] as int;
      0xf0 <= v < 0xf8 && AllFollow(s, 3) && Join6(LeadBits(v), s[1..]) == c
  {
    FourParts(c / 262144, c / 4096 % 64, c / 64 % 64, c % 64);
    Sextets(c);
  }

  lemma FourParts(a: nat, b: nat, d: nat, e: nat)
    requires a < 5 && b < 64 && d < 64 && e < 64
    ensures var s := [Octet(0xf0 + a), Octet(0x80 + b), Octet(0x80 + d), Octet(0x80 + e)];
      var v := s[0] as int;
      0xf0 <= v < 0xf8 && AllFollow(s, 3) && Join6(LeadBits(v), s[1..]) == ((a * 64 + b) * 64 + d) * 64 + e
  {
    var t := [Octet(0x80 + b), Octet(0x80 + d), Octet(0x80 + e)];
    assert [Octet(0xf0 + a), Octet(0x80 + b), Octet(0x80 + d), Octet(0x80 + e)][1..] == t;
    assert t[1..] == [Octet(0x80 + d), Octet(0x80 + e)];
    assert Low6(Octet(0x80 + b)) == b && Low6(Octet(0x80 + d)) == d && Low6(Octet(0x80 + e)) == e;
    JoinTwo(a * 64 + b, t[1..]);
    assert Join6(a, t) == Join6(a * 64 + Low6(t[0]), t[1..]);
  }

  lemma Sextets(c: nat)
    ensures c == ((c / 262144 * 64 + c / 4096 % 64) * 64 + c / 64 % 64) * 64 + c % 64
  {
    var x := c / 64;
    var y := x / 64;
    assert c / 4096 == y && c / 262144 == y / 64;
  }

  lemma JoinOne(val: nat, s: text)
    requires |s| == 1
    ensures Join6(val, s) == val * 64 + Low6(s[0])
  {
    assert s[1..] == [];
    assert Join6(val * 64 + Low6(s[0]), []) == val * 64 + Low6(s[0]);
  }

  lemma JoinTwo(val: nat, s: text)
    requires |s| == 2
    ensures Join6(val, s) == (val * 64 + Low6(s[0])) * 64 + Low6(s[1])
  {
    JoinOne(val * 64 + Low6(s[0]), s[1..]);
  }

  lemma EscapeFirst(c: nat, more: text)
    requires Scalar(c)
    ensures EscapeText(Utf8(c) + more) == Then(EscapeChar(c), EscapeText(more))
  {
    var u := Utf8(c);
    var s := u + more;
    JoinBack(c);
    var n := |u| - 1;
    assert s[1..1 + n] == u[1..] && s[1 + n..] == more;
    assert AllFollow(s, n);
    hide Utf8, EscapeCode, Join6;
    assert c < 0x80 ==> u == [Octet(c)] by { Utf8Ascii(c); }
  }

  lemma Utf8Ascii(c: nat)
    requires Scalar(c)
    ensures c < 0x80 ==> Utf8(c) == [Octet(c)]
  {
  }

  /** A code above the basic plane is a surrogate pair. */
  lemma PairIs(c: nat)
    requires 0x1_0000 <= c < 0x11_0000
    ensures var v := c - 0x1_0000;
      EscapeCode(c) == Escape16(0xd800 + v / 1024) + Escape16(0xdc00 + v % 1024)
  {
    var v := c - 0x1_0000;
    hide BitAnd, BitOr, Escape16;
    MaskActs(v / 1024);
    MaskActs(v);
  }

  lemma CodeBack(c: nat, rest: text)
    requires Scalar(c)
    ensures StrBody(EscapeCode(c) + rest, None) == PrependText(Utf8(c), StrBody(rest, None))
  {
    hide StrBody, Escape16, Read4, Utf8;
    PutUtf8Is(c);
    if c < 0x1_0000 {
      Read4Back(c, rest);
      UnitBack(c, rest, None);
    } else {
      var v := c - 0x1_0000;
      PairIs(c);
      var second := Escape16(0xdc00 + v % 1024) + rest;
      assert EscapeCode(c) + rest == Escape16(0xd800 + v / 1024) + second;
      Read4Back(0xd800 + v / 1024, second);
      UnitBack(0xd800 + v / 1024, second, None);
      Read4Back(0xdc00 + v % 1024, rest);
      UnitBack(0xdc00 + v % 1024, rest, Some(v / 1024));
    }
  }

  lemma CharBack(c: nat, rest: text)
    requires Scalar(c)
    ensures StrBody(EscapeChar(c) + rest, None) == PrependText(Utf8(c), StrBody(rest, None))
  {
    Utf8Ascii(c);
    if c < 0x80 && ShortEscape(Octet(c)) != [] {
      ShortBack(Octet(c), rest);
    } else if 0x20 <= c < 0x7f {
      PlainBack(Octet(c), rest);
    } else {
      CodeBack(c, rest);
    }
  }

  lemma ShortBack(c: char, rest: text)
    requires ShortEscape(c) != []
    ensures StrBody(ShortEscape(c) + rest, None) == PrependText([c], StrBody(rest, None))
  {
    var s := ShortEscape(c) + rest;
    assert s[0] == '\\' && s[1] != 'u' && Unescape(s[1]) == Some(c);
    assert s[1..][0] == s[1] && s[1..][1..] == rest;
  }

  lemma PlainBack(c: char, rest: text)
    requires 0x20 <= c as int < 0x7f && ShortEscape(c) == []
    ensures StrBody([c] + rest, None) == PrependText([c], StrBody(rest, None))
  {
    var s := [c] + rest;
    assert s[..1] == [c] && s[1..] == rest;
    assert RawLength(s) == 1;
  }

  /** Unlike section 7 of RFC 8259 says, every control character but NUL, a newline for
      instance, may stand in a string as it is. */
  lemma ControlTaken(c: char, rest: text)
    requires 0 < c as int < 0x20
    ensures StrBody([c] + rest, None) == PrependText([c], StrBody(rest, None))
  {
    var s := [c] + rest;
    assert s[..1] == [c] && s[1..] == rest;
    assert RawLength(s) == 1;
  }

  lemma PrependMore(a: text, b: text, r: Parsed<text>)
    ensures PrependText(a, PrependText(b, r)) == PrependText(a + b, r)
  {
    if r.POk? { assert a + (b + r.val) == (a + b) + r.val; }
  }

  /** Every well-formed UTF-8 text is escaped, and what is read back is the same text. */
  lemma {:induction false} EscapedBack(cs: seq<nat>, tail: text)
    requires Scalars(cs)
    ensures EscapeText(Utf8Text(cs)).Some?
    ensures StrBody(EscapeText(Utf8Text(cs)).value + "\"" + tail, None) == POk(Utf8Text(cs), tail)
    decreases |cs|
  {
    hide EscapeChar, Utf8, EscapeText, StrBody;
    if cs == [] {
      NothingBack(tail);
    } else {
      var c, more := cs[0], Utf8Text(cs[1..]);
      EscapeFirst(c, more);
      EscapedBack(cs[1..], tail);
      var e := EscapeText(more).value;
      assert EscapeChar(c) + e + "\"" + tail == EscapeChar(c) + (e + "\"" + tail);
      CharBack(c, e + "\"" + tail);
    }
  }

  lemma NothingBack(tail: text)
    ensures EscapeText([]) == Some([])
    ensures StrBody([] + "\"" + tail, None) == POk([], tail)
  {
    var s := [] + "\"" + tail;
    assert s[0] == '"' && s[1..] == tail;
  }

  /** `getStr` on the result of `strToStr` gives the text back. */
  lemma StringBack(cs: seq<nat>, tail: text)
    requires Scalars(cs)
    ensures var s := StrToStr(Utf8Text(cs)) + tail;
      s[0] == '"' && StrBody(s[1..], None) == POk(Utf8Text(cs), tail)
  {
    hide EscapeText, StrBody, Utf8Text;
    EscapedBack(cs, tail);
    var e := EscapeText(Utf8Text(cs)).value;
    assert (StrToStr(Utf8Text(cs)) + tail)[1..] == e + "\"" + tail;
  }
}
