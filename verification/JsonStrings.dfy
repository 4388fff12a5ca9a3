/**
 The strings and keywords that the JSON parser accepts, exactly, and what is stored of them.
 */
module JsonStrings {
  import opened Octets
  import opened JsonText
  import opened JsonNumber
  import opened JsonTree
  import opened JsonGrammar

  /** A part of a string: an octet sequence that looks like UTF-8, an escape of one letter, an
      escape with four hexadecimal digits, or two of them for a surrogate pair. */
  datatype Part = Raw(w: text) | Short(c: char) | Code(h: text) | Halves(h: text, l: text)

  predicate Hex4(h: text) { |h| == 4 && forall i :: 0 <= i < 4 ==> HexValue(h[i]) < 16 }

  function Code4(h: text): (v: nat)
    requires Hex4(h)
    ensures v < 0x1_0000
  {
    HexValue(h[0]) * 0x1000 + HexValue(h[1]) * 0x100 + HexValue(h[2]) * 0x10 + HexValue(h[3])
  }

  /** The octets of a character, by the first one; overlong forms and surrogates are not told apart. */
  predicate RawOk(w: text) {
    && w != [] && w[0] != '\0' && w[0] != '"' && w[0] != '\\'
    && |w| == (if w[0] as int < 0x80 then 1 else if w[0] as int < 0xe0 then 2 else if w[0] as int < 0xf0 then 3 else 4)
    && !(0x80 <= w[0] as int < 0xc0) && forall i :: 1 <= i < |w| ==> 0x80 <= w[i] as int < 0xc0
  }

  function Letter(c: char): Option<nat> {
    match c
    case '"' => Some(0x22)
    case '\\' => Some(0x5c)
    case '/' => Some(0x2f)
    case 'b' => Some(8)
    case 'f' => Some(0xc)
    case 'n' => Some(0xa)
    case 'r' => Some(0xd)
    case 't' => Some(9)
    case _ => None
  }

  predicate PartOk(p: Part) {
    match p
    case Raw(w) => RawOk(w)
    case Short(c) => Letter(c).Some?
    case Code(h) => Hex4(h) && !(0xd800 <= Code4(h) < 0xe000)
    case Halves(h, l) => Hex4(h) && Hex4(l) && 0xd800 <= Code4(h) < 0xdc00 && 0xdc00 <= Code4(l) < 0xe000
  }

  function PartText(p: Part): text {
    match p
    case Raw(w) => w
    case Short(c) => ['\\', c]
    case Code(h) => ['\\', 'u'] + h
    case Halves(h, l) => ['\\', 'u'] + h + (['\\', 'u'] + l)
  }

  /** What is stored: the octets as they are, or the UTF-8 form of the character. */
  function PartOctets(p: Part): text
    requires PartOk(p)
  {
    match p
    case Raw(w) => w
    case Short(c) => Utf8(Letter(c).value)
    case Code(h) => Utf8(Code4(h))
    case Halves(h, l) => Utf8(0x1_0000 + 0x400 * (Code4(h) - 0xd800) + (Code4(l) - 0xdc00))
  }

  predicate PartsOk(ps: seq<Part>) { forall i :: 0 <= i < |ps| ==> PartOk(ps[i]) }

  function PartsText(ps: seq<Part>, tail: text): text {
    if ps == [] then tail else PartText(ps[0]) + PartsText(ps[1..], tail)
  }

  function PartsOctets(ps: seq<Part>): text
    requires PartsOk(ps)
  {
    if ps == [] then [] else PartOctets(ps[0]) + PartsOctets(ps[1..])
  }

  // ---------------------------------------------------------------- what is spelled is accepted

  lemma Read4Is(h: text, t: text)
    requires |h| == 4
    ensures (h + t)[4..] == t && Read4(h + t) == if Hex4(h) then Some(Code4(h)) else None
  {
    assert forall i :: 0 <= i < 4 ==> (h + t)[i] == h[i];
    if !Hex4(h) {
      var i :| 0 <= i < 4 && HexValue(h[i]) == 16;
      assert HexValue((h + t)[i]) == 16;
    }
  }

  lemma RawRead(w: text, t: text)
    requires RawOk(w)
    ensures StrBody(w + t, None) == PrependText(w, StrBody(t, None))
  {
    var s := w + t;
    assert s[0] == w[0] && forall i :: 0 <= i < |w| ==> s[i] == w[i];
    assert RawLength(s) == |w|;
    assert s[..|w|] == w && s[|w|..] == t;
  }

  lemma ShortRead(c: char, t: text)
    requires Letter(c).Some?
    ensures StrBody(['\\', c] + t, None) == PrependText(Utf8(Letter(c).value), StrBody(t, None))
  {
    hide RawLength, UProc, Utf8, Letter, Unescape;
    LetterIs(c);
    var s := ['\\', c] + t;
    assert s[0] == '\\' && s[1..][0] == c && s[1..][1..] == t;
  }

  lemma LetterIs(c: char)
    requires Letter(c).Some?
    ensures c != 'u' && c != '\0' && Unescape(c).Some? && [Unescape(c).value] == Utf8(Letter(c).value)
  {
  }

  lemma CodeRead(h: text, t: text)
    requires PartOk(Code(h))
    ensures StrBody(['\\', 'u'] + h + t, None) == PrependText(Utf8(Code4(h)), StrBody(t, None))
  {
    hide PutUtf8, Utf8, Read4;
    var s := ['\\', 'u'] + h + t;
    assert s[0] == '\\' && s[1..][0] == 'u' && s[1..][1..] == h + t;
    Read4Is(h, t);
    PutUtf8Is(Code4(h));
  }

  lemma HalvesRead(h: text, l: text, t: text)
    requires PartOk(Halves(h, l))
    ensures StrBody(PartText(Halves(h, l)) + t, None) == PrependText(PartOctets(Halves(h, l)), StrBody(t, None))
  {
    hide PutUtf8, Utf8, Read4, StrBody;
    var second := ['\\', 'u'] + (l + t);
    var s := PartText(Halves(h, l)) + t;
    assert s == ['\\', 'u'] + (h + second);
    var high := Code4(h) - 0xd800;
    Read4Is(h, second);
    Read4Is(l, t);
    HighRead(s, h + second, second, high);
    var v := 0x1_0000 + 0x400 * high + (Code4(l) - 0xdc00);
    PutUtf8Is(v);
    LowRead(second, l + t, t, high, v);
  }

  lemma HighRead(s: text, digits: text, second: text, high: nat)
    requires s == ['\\', 'u'] + digits && UProc(digits, None) == UHigh(high, second)
    ensures StrBody(s, None) == StrBody(second, Some(high))
  {
    hide UProc;
    assert s[0] == '\\' && s[1..][0] == 'u' && s[1..][1..] == digits;
  }

  lemma LowRead(s: text, digits: text, t: text, high: nat, v: nat)
    requires s == ['\\', 'u'] + digits && high < 1024 && v < 0x20_0000 && UProc(digits, Some(high)) == UChar(PutUtf8(v), t)
    ensures StrBody(s, Some(high)) == PrependText(PutUtf8(v), StrBody(t, None))
  {
    hide UProc, PutUtf8;
    assert s[0] == '\\' && s[1..][0] == 'u' && s[1..][1..] == digits;
  }

  lemma PartRead(p: Part, t: text)
    requires PartOk(p)
    ensures StrBody(PartText(p) + t, None) == PrependText(PartOctets(p), StrBody(t, None))
  {
    hide StrBody, Utf8, Hex4, RawOk;
    match p
    case Raw(w) => RawRead(w, t);
    case Short(c) => ShortRead(c, t);
    case Code(h) => CodeRead(h, t);
    case Halves(h, l) => HalvesRead(h, l, t);
  }

  lemma {:induction false} PartsRead(ps: seq<Part>, rest: text)
    requires PartsOk(ps)
    ensures StrBody(PartsText(ps, ['"'] + rest), None) == POk(PartsOctets(ps), rest)
    decreases |ps|
  {
    hide PartOk, PartText, PartOctets;
    if ps == [] {
      assert (['"'] + rest)[1..] == rest;
    } else {
      hide StrBody;
      PartsRead(ps[1..], rest);
      PartRead(ps[0], PartsText(ps[1..], ['"'] + rest));
    }
  }

  // ---------------------------------------------------------------- what is accepted is spelled

  /** The first part of a string that is accepted. */
  lemma FirstPart(s: text) returns (p: Part, t: text)
    requires StrBody(s, None).POk? && s[0] != '"'
    ensures PartOk(p) && s == PartText(p) + t && |t| < |s| && StrBody(t, None).POk?
  {
    if s[0] != '\\' {
      var n := RawLength(s);
      p, t := Raw(s[..n]), s[n..];
      assert s == s[..n] + s[n..];
    } else if s[1] != 'u' {
      p, t := Short(s[1]), s[2..];
      assert s[1..][1..] == s[2..] && s == [s[0], s[1]] + s[2..];
    } else {
      p, t := FirstCode(s);
    }
  }

  lemma FirstCode(s: text) returns (p: Part, t: text)
    requires StrBody(s, None).POk? && s[0] == '\\' && |s| > 1 && s[1] == 'u'
    ensures PartOk(p) && s == PartText(p) + t && |t| < |s| && StrBody(t, None).POk?
  {
    hide PutUtf8, Read4;
    var digits := s[1..][1..];
    var h, more := digits[..4], digits[4..];
    assert digits == h + more && s == ['\\', 'u'] + digits;
    Read4Is(h, more);
    if Code4(h) < 0xd800 || Code4(h) >= 0xe000 {
      p, t := Code(h), more;
    } else {
      assert UProc(digits, None).UHigh?;
      var low := more[1..][1..];
      var l, rest := low[..4], low[4..];
      assert low == l + rest && more == ['\\', 'u'] + low;
      Read4Is(l, rest);
      p, t := Halves(h, l), rest;
    }
  }

  lemma {:induction false} PartsTaken(s: text) returns (ps: seq<Part>)
    requires StrBody(s, None).POk?
    ensures PartsOk(ps) && s == PartsText(ps, ['"'] + StrBody(s, None).rest)
    decreases |s|
  {
    hide PartOk, PartText, PartOctets;
    if s[0] == '"' {
      ps := [];
      assert s == ['"'] + s[1..];
    } else {
      var p, t := FirstPart(s);
      var more := PartsTaken(t);
      hide StrBody;
      PartRead(p, t);
      ps := [p] + more;
      assert ps[1..] == more;
    }
  }

  /** A string is accepted if and only if it is made of these parts up to its quotation mark, and
      their octets are stored. */
  lemma StringExactly(s: text, v: text, rest: text)
    ensures StrBody(s, None) == POk(v, rest)
       <==> exists ps :: PartsOk(ps) && s == PartsText(ps, ['"'] + rest) && v == PartsOctets(ps)
  {
    hide StrBody, PartsOk, PartsText, PartsOctets;
    if StrBody(s, None) == POk(v, rest) {
      var ps := PartsTaken(s);
      PartsRead(ps, rest);
    }
    if ps :| PartsOk(ps) && s == PartsText(ps, ['"'] + rest) && v == PartsOctets(ps) { PartsRead(ps, rest); }
  }

  // ---------------------------------------------------------------- keywords

  predicate WordIs(t: Token, w: text) {
    (t.TrueToken? && w == "true") || (t.FalseToken? && w == "false") || (t.NullToken? && w == "null")
  }

  lemma WordEnd(s: text, key: text)
    requires Delimits(s) && IsWord(Keyword(s, key).token)
    ensures WordIs(Keyword(s, key).token, key) && Keyword(s, key).rest == s
  {
    hide Delimits;
  }

  lemma {:induction false} WordLetters(s: text, key: text) returns (w: text)
    requires IsWord(Keyword(s, key).token)
    ensures var l := Keyword(s, key); s == w + l.rest && Delimits(l.rest) && WordIs(l.token, key + w)
    decreases |s|
  {
    hide WordIs;
    if Delimits(s) {
      w := [];
      WordEnd(s, key);
      assert key + w == key && s == w + s;
    } else {
      var k := key + [s[0]];
      var more := WordLetters(s[1..], k);
      w := [s[0]] + more;
      assert key + w == k + more;
      assert s == [s[0]] + s[1..];
    }
  }

  /** The keywords are true, false and null, in front of a delimiter, and nothing else. */
  lemma WordExactly(s: text, j: Json, rest: text)
    ensures var l := Keyword(s, "");
      (IsWord(l.token) && WordOf(l.token) == j && l.rest == rest)
      <==> (j.JBool? || j.JNull?) && Delimits(rest)
           && s == (if j.JNull? then "null" else if j.b then "true" else "false") + rest
  {
    hide Keyword, Delimits;
    var l := Keyword(s, "");
    if IsWord(l.token) && WordOf(l.token) == j && l.rest == rest {
      var w := WordLetters(s, "");
      assert "" + w == w;
      assert |"true"| != |"false"| && |"null"| != |"false"| && "true"[0] != "null"[0];
    }
    if (j.JBool? || j.JNull?) && Delimits(rest) {
      KeyWords(j);
      var w: text := if j.JNull? then "null" else if j.b then "true" else "false";
      KeywordReads(w, "", rest);
      assert "" + w == w;
    }
  }
}
