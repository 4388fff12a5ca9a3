/**
 The JSON parser as an object with a cursor, and the methods that print a tree.
 Every method is proved against the functions on the rest of the text; the cursor never
 passes the end of the text, whether a method succeeds or not.
 */
module JsonParsing {
  import opened Octets
  import opened JsonText
  import opened JsonNumber
  import opened JsonTree

  lemma Ahead(s: text, i: nat)
    requires i < |s|
    ensures s[i..][0] == s[i] && s[i..][1..] == s[i + 1..] && s[i..] != []
  {
  }

  class JsonParser {
    const chars: text
    const useComments: bool
    var cur: nat
    var lineNum: nat

    ghost predicate Valid()
      reads this`cur
    {
      cur <= |chars|
    }

    ghost function Rest(): text
      requires Valid()
      reads this`cur
    {
      chars[cur..]
    }

    /** `init`, behind a byte order mark. */
    constructor (chars: text, useComments: bool)
      ensures Valid() && this.chars == chars && this.useComments == useComments && Rest() == SkipMark(chars)
    {
      this.chars, this.useComments, lineNum := chars, useComments, 0;
      cur := if |chars| >= 3 && chars[..3] == [Octet(0xef), Octet(0xbb), Octet(0xbf)] then 3 else 0;
    }

    predicate AtEnd()
      requires cur <= |chars|
      reads this`cur
    {
      cur == |chars| || chars[cur] == '\0'
    }

    method SkipWs() returns (eof: bool)
      requires Valid()
      modifies this`cur, this`lineNum
      ensures Valid() && Rest() == SkipSpaces(old(Rest())) && eof == Eof(Rest())
    {
      while true
        invariant Valid() && SkipSpaces(Rest()) == SkipSpaces(old(Rest()))
        decreases |chars| - cur
      {
        if AtEnd() { return true; }
        Ahead(chars, cur);
        if !IsSpace(chars[cur]) { return false; }
        if chars[cur] == '\n' { lineNum := lineNum + 1; }
        cur := cur + 1;
      }
    }

    /** At a solidus: the text behind the comment. */
    method SkipComments() returns (bad: bool)
      requires Valid() && cur < |chars|
      modifies this`cur, this`lineNum
      ensures Valid() && Comment(!bad, Rest()) == SkipComment(old(Rest()))
    {
      Ahead(chars, cur);
      cur := cur + 1;
      if AtEnd() { return true; }
      Ahead(chars, cur);
      if chars[cur] == '/' {
        cur := cur + 1;
        ghost var from := Rest();
        while !AtEnd() && chars[cur] != '\n'
          invariant Valid() && LineComment(Rest()) == LineComment(from)
          decreases |chars| - cur
        {
          Ahead(chars, cur);
          cur := cur + 1;
        }
        return false;
      }
      if chars[cur] == '*' {
        cur := cur + 1;
        bad := SkipBlock();
        return;
      }
      return true;
    }

    method SkipBlock() returns (bad: bool)
      requires Valid()
      modifies this`cur, this`lineNum
      ensures Valid()
      ensures var r := BlockComment(old(Rest()), false);
        if bad then r.None? && Rest() == BlockEnd(old(Rest())) else r == Some(Rest())
    {
      var star := false;
      while true
        invariant Valid() && BlockComment(Rest(), star) == BlockComment(old(Rest()), false)
        invariant BlockEnd(Rest()) == BlockEnd(old(Rest()))
        decreases |chars| - cur
      {
        if AtEnd() { return true; }
        Ahead(chars, cur);
        var c := chars[cur];
        cur := cur + 1;
        if c == '/' && star { return false; }
        star := c == '*';
        if c == '\n' { lineNum := lineNum + 1; }
      }
    }

    method GetKey() returns (tk: Token)
      requires Valid()
      modifies this`cur
      ensures Valid() && Lexed(tk, Rest()) == Keyword(old(Rest()), "")
    {
      var key: text := "";
      while true
        invariant Valid() && Keyword(Rest(), key) == Keyword(old(Rest()), "")
        decreases |chars| - cur
      {
        if AtEnd() || Ends(chars[cur]) {
          return if key == "true" then TrueToken else if key == "false" then FalseToken
                 else if key == "null" then NullToken else Invalid;
        }
        Ahead(chars, cur);
        if !('a' <= chars[cur] <= 'z') { return Invalid; }
        key := key + [chars[cur]];
        cur := cur + 1;
      }
    }

    method NextToken() returns (tk: Token)
      requires Valid()
      modifies this`cur, this`lineNum
      ensures Valid() && Lexed(tk, Rest()) == GetToken(old(Rest()), useComments) && AtMark(Lexed(tk, Rest()))
    {
      hide SkipSpaces, SkipComment, Keyword;
      while true
        invariant Valid() && GetToken(Rest(), useComments) == GetToken(old(Rest()), useComments)
        decreases |chars| - cur
      {
        var eof := SkipWs();
        if eof { return EndToken; }
        Ahead(chars, cur);
        var c := chars[cur];
        if c == '/' {
          if !useComments { return Invalid; }
          var bad := SkipComments();
          if bad { return Invalid; }
        } else if 'a' <= c <= 'z' {
          tk := GetKey();
          return;
        } else {
          return Mark(c);
        }
      }
    }

    /** `uToVal`: four hexadecimal digits. */
    method ReadHex4() returns (ok: bool, val: nat)
      requires Valid()
      modifies this`cur
      ensures Valid() && ok == Read4(old(Rest())).Some?
      ensures ok ==> val == Read4(old(Rest())).value && Rest() == old(Rest())[4..]
    {
      ghost var s := Rest();
      var start := cur;
      val := 0;
      for i := 0 to 4
        invariant Valid() && cur == start + i && i <= |s| && forall k :: 0 <= k < i ==> HexValue(s[k]) < 16
        invariant val == HexPrefix(s, i)
      {
        if AtEnd() || HexValue(chars[cur]) == 16 {
          assert i < |s| ==> HexValue(s[i]) == 16;
          return false, 0;
        }
        assert s[i] == chars[cur];
        val := val * 16 + HexValue(chars[cur]);
        cur := cur + 1;
      }
      assert s[4..] == chars[cur..];
      HexPrefixIs(s);
      return true, val;
    }

    /** `uProc`: `high` is the first half of a surrogate pair, if there is one. */
    method ReadUnit(high: Option<nat>) returns (ok: bool, out: text, next: Option<nat>)
      requires Valid() && (high.Some? ==> high.value < 1024)
      modifies this`cur
      ensures Valid() && (next.Some? ==> next.value < 1024)
      ensures UProc(old(Rest()), high) ==
        if !ok then UBad else if next.Some? then UHigh(next.value, Rest()) else UChar(out, Rest())
      ensures next.Some? ==> out == ""
    {
      hide Read4, PutUtf8;
      next, out := None, "";
      var val;
      ok, val := ReadHex4();
      if !ok { return; }
      if high.Some? {
        if val >= 0xe000 || val < 0xdc00 { return false, "", None; }
        out := PutUtf8(high.value * 1024 + (val - 0xdc00) + 0x1_0000);
      } else if val < 0xd800 || val >= 0xe000 {
        out := PutUtf8(val);
      } else if val < 0xdc00 {
        next := Some(val - 0xd800);
      } else {
        return false, "", None;
      }
    }

    /** `checkUTF8`: the octets of one character. */
    method ReadRaw() returns (n: nat)
      requires Valid() && cur < |chars| && chars[cur] != '\0'
      modifies this`cur
      ensures Valid() && n == RawLength(old(Rest()))
      ensures n > 0 ==> n <= |old(Rest())| && Rest() == old(Rest())[n..]
    {
      var start, v := cur, chars[cur] as int;
      if 0x80 <= v < 0xc0 { return 0; }
      cur := cur + 1;
      var extra := if v < 0xc0 then 0 else if v < 0xe0 then 1 else if v < 0xf0 then 2 else 3;
      for i := 1 to extra + 1
        invariant Valid() && cur == start + i && forall k :: 1 <= k < i ==> Follows(chars[start..][k])
      {
        if AtEnd() || !Follows(chars[cur]) {
          assert i < |chars[start..]| ==> !Follows(chars[start..][i]);
          return 0;
        }
        cur := cur + 1;
      }
      assert chars[start..][1 + extra..] == chars[cur..];
      n := 1 + extra;
    }

    /** One round of the loop of `getStr`: the octets of a character, or the first half of a
        surrogate pair, or the end of the string. */
    method ReadChar(w1: Option<nat>) returns (ok: bool, done: bool, out: text, next: Option<nat>)
      requires Valid() && (w1.Some? ==> w1.value < 1024)
      modifies this`cur
      ensures Valid() && (next.Some? ==> next.value < 1024) && (ok ==> cur > old(cur))
      ensures StrBody(old(Rest()), w1) ==
        if !ok then PFail else if done then POk("", Rest()) else PrependText(out, StrBody(Rest(), next))
    {
      hide UProc, RawLength, Unescape;
      ok, done, out, next := false, false, "", None;
      if AtEnd() { return; }
      Ahead(chars, cur);
      var c := chars[cur];
      if w1.Some? && c != '\\' { return; }
      if c == '"' {
        cur := cur + 1;
        return true, true, "", None;
      }
      if c == '\\' {
        cur := cur + 1;
        if AtEnd() { return; }
        Ahead(chars, cur);
        var d := chars[cur];
        if w1.Some? && d != 'u' { return; }
        cur := cur + 1;
        if d == 'u' {
          ok, out, next := ReadUnit(w1);
          if ok { PrependNothing(StrBody(Rest(), next)); }
        } else {
          var plain := Unescape(d);
          if plain.Some? { ok, out := true, [plain.value]; }
        }
        return;
      }
      var start := cur;
      var n := ReadRaw();
      if n > 0 {
        assert chars[start..][..n] == chars[start..start + n];
        ok, out := true, chars[start..start + n];
      }
    }

    /** `getStr`, at the quotation mark. */
    method ReadString() returns (ok: bool, ret: text)
      requires Valid() && cur < |chars|
      modifies this`cur
      ensures Valid() && ok == StrBody(old(Rest())[1..], None).POk?
      ensures ok ==> StrBody(old(Rest())[1..], None) == POk(ret, Rest())
    {
      hide StrBody;
      Ahead(chars, cur);
      cur := cur + 1;
      ret := "";
      var w1: Option<nat>, done := None, false;
      ghost var all := StrBody(Rest(), None);
      PrependNothing(all);
      while !done
        invariant Valid() && (w1.Some? ==> w1.value < 1024)
        invariant all == PrependText(ret, if done then POk("", Rest()) else StrBody(Rest(), w1))
        decreases !done, |chars| - cur
      {
        var out;
        ok, done, out, w1 := ReadChar(w1);
        if !ok { return; }
        if !done {
          PrependMore(ret, out, StrBody(Rest(), w1));
          ret := ret + out;
        }
      }
      assert ret + "" == ret;
      ok := true;
    }

    /** `getNum`. */
    method ReadNumber() returns (ok: bool, n: Number)
      requires Valid()
      modifies this`cur
      ensures Valid() && ok == GetNum(old(Rest())).POk?
      ensures ok ==> GetNum(old(Rest())) == POk(n, Rest())
    {
      hide NumStep;
      n := Number("", 0, 0);
      if AtEnd() { return false, n; }
      Ahead(chars, cur);
      var first := chars[cur];
      cur := cur + 1;
      if first == '-' && AtEnd() { return false, n; }
      if first != '-' && !IsDigit(first) { return false, n; }
      var st := NumState([first], 0, 0, first == '0' || (first == '-' && chars[cur] == '0'),
                         if first == '-' && chars[cur] == '0' then 1 else 0, !IsDigit(first), first == '0');
      ghost var all := NumLoop(st, Rest());
      while true
        invariant Valid() && NumLoop(st, Rest()) == all
        decreases |chars| - cur
      {
        if AtEnd() || Ends(chars[cur]) {
          return !st.lastNotDigit, Number(st.ret, st.dot, st.e);
        }
        Ahead(chars, cur);
        var next := NumStep(st, chars[cur]);
        if next.None? { return false, n; }
        st := next.value;
        cur := cur + 1;
      }
    }

    /** `ParserCreate` and `parserVal`, for the token the cursor is at. */
    method Value(tk: Token) returns (ok: bool, j: Json)
      requires Valid() && AtMark(Lexed(tk, Rest()))
      modifies this`cur, this`lineNum
      ensures Valid() && ok == ParseValue(tk, old(Rest()), useComments).POk?
      ensures ok ==> ParseValue(tk, old(Rest()), useComments) == POk(j, Rest())
      decreases |chars| - cur, 0
    {
      hide ParseObject, ParseArray, StrBody, GetNum;
      j := JNull;
      match tk
      case ObjectStart =>
        Ahead(chars, cur);
        cur := cur + 1;
        ok, j := Object();
      case ArrayStart =>
        Ahead(chars, cur);
        cur := cur + 1;
        ok, j := Array();
      case StrToken =>
        var val;
        ok, val := ReadString();
        j := JString(val);
      case NumToken =>
        var n;
        ok, n := ReadNumber();
        j := JNumber(n);
      case TrueToken => ok, j := true, JBool(true);
      case FalseToken => ok, j := true, JBool(false);
      case NullToken => ok, j := true, JNull;
      case _ => ok := false;
    }

    /** `jsonObject::parserVal`, behind the bracket. */
    method Object() returns (ok: bool, j: Json)
      requires Valid()
      modifies this`cur, this`lineNum
      ensures Valid() && ok == ParseObject(old(Rest()), useComments).POk?
      ensures ok ==> ParseObject(old(Rest()), useComments) == POk(j, Rest())
      decreases |chars| - cur, 2
    {
      hide GetToken, ParseMembers, Insert;
      var tk := NextToken();
      if tk.ObjectEnd? {
        Ahead(chars, cur);
        cur := cur + 1;
        return true, JObject(NoMember);
      }
      var members, more := NoMember, true;
      ghost var all := ParseMembers(Rest(), NoMember, useComments);
      while more
        invariant Valid() && cur >= old(cur)
        invariant more ==> ParseMembers(Rest(), members, useComments) == all
        invariant !more ==> all == POk(JObject(members), Rest())
        decreases more, |chars| - cur
      {
        ok, members, more := OneMember(members);
        if !ok { return false, JNull; }
      }
      return true, JObject(members);
    }

    /** One round of the loop over the members of an object. */
    method OneMember(members: Members) returns (ok: bool, all: Members, more: bool)
      requires Valid()
      modifies this`cur, this`lineNum
      ensures Valid() && (ok ==> cur >= old(cur))
      ensures var r := ParseMembers(old(Rest()), members, useComments);
        if !ok then r == PFail
        else if more then cur > old(cur) && r == ParseMembers(Rest(), all, useComments)
        else r == POk(JObject(all), Rest())
      decreases |chars| - cur, 1
    {
      hide GetToken, ParseKey, ParseValue, Insert;
      all, more := members, false;
      var key;
      ok, key := Key();
      if !ok { return; }
      var tk := NextToken();
      var value;
      ok, value := Value(tk);
      if !ok { return; }
      all := Insert(members, key, value);
      tk := NextToken();
      if tk.ObjectEnd? || tk.ValueSep? {
        Ahead(chars, cur);
        cur := cur + 1;
        more := tk.ValueSep?;
      } else {
        ok := false;
      }
    }

    method Key() returns (ok: bool, key: text)
      requires Valid()
      modifies this`cur, this`lineNum
      ensures Valid() && ok == ParseKey(old(Rest()), useComments).POk?
      ensures ok ==> ParseKey(old(Rest()), useComments) == POk(key, Rest())
    {
      hide GetToken, StrBody;
      var tk := NextToken();
      if !tk.StrToken? { return false, ""; }
      ok, key := ReadString();
      if !ok { return; }
      tk := NextToken();
      if !tk.NameSep? { return false, key; }
      Ahead(chars, cur);
      cur := cur + 1;
    }

    /** `jsonArray::parserVal`, behind the bracket. */
    method Array() returns (ok: bool, j: Json)
      requires Valid()
      modifies this`cur, this`lineNum
      ensures Valid() && ok == ParseArray(old(Rest()), useComments).POk?
      ensures ok ==> ParseArray(old(Rest()), useComments) == POk(j, Rest())
      decreases |chars| - cur, 2
    {
      hide GetToken, ParseValue, ParseElements, Append;
      var tk := NextToken();
      if tk.ArrayEnd? {
        Ahead(chars, cur);
        cur := cur + 1;
        return true, JArray(NoElement);
      }
      var elements, more := NoElement, true;
      ghost var all := ParseElements(tk, Rest(), NoElement, useComments);
      while more
        invariant Valid() && cur >= old(cur)
        invariant more ==> AtMark(Lexed(tk, Rest())) && ParseElements(tk, Rest(), elements, useComments) == all
        invariant !more ==> all == POk(JArray(elements), Rest())
        decreases more, |chars| - cur
      {
        ok, tk, elements, more := OneElement(tk, elements);
        if !ok { return false, JNull; }
      }
      return true, JArray(elements);
    }

    /** One round of the loop over the elements of an array. */
    method OneElement(tk: Token, elements: Elements) returns (ok: bool, next: Token, all: Elements, more: bool)
      requires Valid() && AtMark(Lexed(tk, Rest()))
      modifies this`cur, this`lineNum
      ensures Valid() && (ok ==> cur >= old(cur))
      ensures var r := ParseElements(tk, old(Rest()), elements, useComments);
        if !ok then r == PFail
        else if more then cur > old(cur) && AtMark(Lexed(next, Rest())) && r == ParseElements(next, Rest(), all, useComments)
        else r == POk(JArray(all), Rest())
      decreases |chars| - cur, 1
    {
      hide GetToken, ParseValue, Append;
      next, all, more := Invalid, elements, false;
      var value;
      ok, value := Value(tk);
      if !ok { return; }
      all := Append(elements, value);
      next := NextToken();
      if next.ArrayEnd? || next.ValueSep? {
        Ahead(chars, cur);
        cur := cur + 1;
        more := next.ValueSep?;
        if more { next := NextToken(); }
      } else {
        ok := false;
      }
    }
  }

  /** `jsonMain`: the tree of the last text that was accepted. */
  class JsonMain {
    var main: Option<Json>

    constructor ()
      ensures main == None
    {
      main := None;
    }

    /** `parseBuffer`: a text that is refused, or holds nothing, leaves the tree as it was. */
    method ParseBuffer(s: text, useComments: bool) returns (ok: bool)
      modifies this
      ensures ok == !ParseText(s, useComments).Refused?
      ensures main == if ParseText(s, useComments).Tree? then Some(ParseText(s, useComments).json) else old(main)
    {
      hide GetToken, ParseValue, SkipMark;
      if s == [] { return false; }
      var p := new JsonParser(s, useComments);
      var tk := p.NextToken();
      if tk.EndToken? { return true; }
      var j;
      ok, j := p.Value(tk);
      if !ok { return; }
      tk := p.NextToken();
      if !tk.EndToken? { return false; }
      main := Some(j);
    }
  }

  /** `strchr("]}, \n\r\t", c)`. */
  predicate Ends(c: char) {
    c == ']' || c == '}' || c == ',' || c == ' ' || c == '\n' || c == '\r' || c == '\t'
  }

  function HexPrefix(s: text, n: nat): nat
    requires n <= |s|
  {
    if n == 0 then 0 else HexPrefix(s, n - 1) * 16 + HexValue(s[n - 1])
  }

  lemma HexPrefixIs(s: text)
    requires |s| >= 4
    ensures HexPrefix(s, 4) == HexValue(s[0]) * 4096 + HexValue(s[1]) * 256 + HexValue(s[2]) * 16 + HexValue(s[3])
  {
    assert HexPrefix(s, 1) == HexValue(s[0]);
    assert HexPrefix(s, 2) == HexPrefix(s, 1) * 16 + HexValue(s[1]);
    assert HexPrefix(s, 3) == HexPrefix(s, 2) * 16 + HexValue(s[2]);
  }

  lemma PrependNothing(r: Parsed<text>)
    ensures PrependText("", r) == r
  {
    if r.POk? { assert "" + r.val == r.val; }
  }

  // ---------------------------------------------------------------- printing

  /** The octets behind the first one, joined to a code. */
  method JoinCode(s: text, at: nat, n: nat) returns (ok: bool, val: nat)
    requires at < |s| && n <= 3
    ensures ok == AllFollow(s[at..], n)
    ensures ok ==> val == Join6(LeadBits(s[at] as int), s[at + 1..at + 1 + n])
  {
    for i := 1 to n + 1
      invariant i <= |s| - at && forall k :: 1 <= k < i ==> Follows(s[at..][k])
    {
      if at + i >= |s| || !Follows(s[at + i]) {
        assert i < |s[at..]| ==> !Follows(s[at..][i]);
        return false, 0;
      }
      assert s[at..][i] == s[at + i];
    }
    val := LeadBits(s[at] as int);
    ghost var more := s[at + 1..at + 1 + n];
    for i := 0 to n
      invariant Join6(val, more[i..]) == Join6(LeadBits(s[at] as int), more)
    {
      assert more[i..][1..] == more[i + 1..] && more[i..][0] == s[at + 1 + i];
      val := val * 64 + Low6(s[at + 1 + i]);
    }
    ok := true;
  }

  /** The escaped form of the character at `i`, which has `n` octets. */
  method QuoteChar(s: text, i: nat) returns (ok: bool, out: text, n: nat)
    requires i < |s|
    ensures 1 <= n && (ok ==> i + n <= |s|)
    ensures EscapeText(s[i..]) == if ok then Then(out, EscapeText(s[i + n..])) else None
  {
    hide Extra, LeadBits, ShortEscape, EscapeCode, AllFollow, Join6;
    Ahead(s, i);
    var v := s[i] as int;
    out := ShortEscape(s[i]);
    if out != [] { return true, out, 1; }
    if 0x20 <= v < 0x7f { return true, [s[i]], 1; }
    var extra := Extra(v);
    if extra > 3 { return false, out, 1; }
    var val;
    ok, val := JoinCode(s, i, extra);
    n := 1 + extra;
    if ok {
      CodeEnds(s, i, extra);
      out := EscapeCode(val);
    }
  }

  /** `strToStr`. */
  method Quote(s: text) returns (ret: text)
    ensures ret == StrToStr(s)
  {
    hide EscapeText;
    ret := "\"";
    ghost var body: text := "";
    var i := 0;
    assert s[0..] == s;
    ThenNothing(EscapeText(s));
    while i < |s|
      invariant i <= |s| && ret == "\"" + body && EscapeText(s) == Then(body, EscapeText(s[i..]))
    {
      var ok, out, n := QuoteChar(s, i);
      if !ok { return "\"" + s + "\""; }
      ThenMore(body, out, EscapeText(s[i + n..]));
      body := body + out;
      ret := ret + out;
      i := i + n;
    }
    EscapeNothing(s[i..]);
    assert body + [] == body;
    ret := ret + "\"";
  }

  lemma EscapeNothing(s: text)
    ensures s == [] ==> EscapeText(s) == Some([])
  {
  }

  lemma ThenNothing(r: Option<text>)
    ensures Then("", r) == r
  {
    if r.Some? { assert "" + r.value == r.value; }
  }

  lemma ThenMore(a: text, b: text, r: Option<text>)
    ensures Then(a, Then(b, r)) == Then(a + b, r)
  {
    if r.Some? { assert a + (b + r.value) == (a + b) + r.value; }
  }

  lemma CodeEnds(s: text, i: nat, n: nat)
    requires i < |s| && AllFollow(s[i..], n)
    ensures i + 1 + n <= |s|
    ensures s[i..][1..1 + n] == s[i + 1..i + 1 + n] && s[i..][1 + n..] == s[i + 1 + n..]
  {
  }

  // The members and elements of a container, each with a comma behind it

  function CommaMembers(ms: Members, indent: nat): text {
    match ms
    case NoMember => ""
    case Member(key, value, next) =>
      Spaces(2 * indent) + "  " + StrToStr(key) + " : " + Print(value, indent + 2) + ",\n" + CommaMembers(next, indent)
  }

  function CommaElements(es: Elements, indent: nat): text {
    match es
    case NoElement => ""
    case Element(value, next) =>
      Spaces(2 * indent) + "  " + Print(value, indent + 2) + ",\n" + CommaElements(next, indent)
  }

  /** Without the comma behind the last of them it is what the printer gives. */
  lemma {:induction false} LastComma(ms: Members, indent: nat)
    ensures ms.Member? ==>
      var s := CommaMembers(ms, indent);
      |s| >= 2 && s[..|s| - 2] + s[|s| - 1..] == PrintMembers(ms, indent)
    decreases ms
  {
    hide StrToStr, Print;
    if ms.Member? {
      var one := Spaces(2 * indent) + "  " + StrToStr(ms.key) + " : " + Print(ms.value, indent + 2);
      LastComma(ms.next, indent);
      if ms.next.NoMember? {
        NoMore(one);
      } else {
        EraseBehind(one + ",\n", CommaMembers(ms.next, indent));
      }
    }
  }

  lemma {:induction false} LastCommaElement(es: Elements, indent: nat)
    ensures es.Element? ==>
      var s := CommaElements(es, indent);
      |s| >= 2 && s[..|s| - 2] + s[|s| - 1..] == PrintElements(es, indent)
    decreases es
  {
    hide Print;
    if es.Element? {
      var one := Spaces(2 * indent) + "  " + Print(es.value, indent + 2);
      LastCommaElement(es.next, indent);
      if es.next.NoElement? {
        NoMore(one);
      } else {
        EraseBehind(one + ",\n", CommaElements(es.next, indent));
      }
    }
  }

  lemma NoMore(one: text)
    ensures var s := one + ",\n" + "";
      |s| >= 2 && s[..|s| - 2] + s[|s| - 1..] == one + "\n" + ""
  {
  }

  lemma EraseBehind(a: text, b: text)
    requires |b| >= 2
    ensures var s := a + b; s[..|s| - 2] + s[|s| - 1..] == a + (b[..|b| - 2] + b[|b| - 1..])
  {
  }

  /** `toString`. */
  method ToText(j: Json, indent: nat) returns (ret: text)
    ensures ret == Print(j, indent)
    decreases j, 1
  {
    hide StrToStr;
    match j
    case JString(val) => ret := Quote(val);
    case JNumber(n) => ret := n.val;
    case JBool(b) => ret := if b then "true" else "false";
    case JNull => ret := "null";
    case JObject(members) => ret := ObjectText(members, indent);
    case JArray(elements) => ret := ArrayText(elements, indent);
  }

  method ObjectText(members: Members, indent: nat) returns (ret: text)
    ensures ret == Print(JObject(members), indent)
    decreases members, 1
  {
    hide CommaMembers, PrintMembers;
    var it1 := Spaces(2 * indent);
    ret := it1 + "{\n";
    ghost var head := ret;
    var inner := MembersText(members, indent);
    ret := ret + inner;
    LastComma(members, indent);
    if members.Member? {
      EraseBehind(head, inner);
      ret := ret[..|ret| - 2] + ret[|ret| - 1..];
    } else {
      NothingInside(indent);
    }
    ret := ret + it1 + "}";
  }

  method MembersText(members: Members, indent: nat) returns (ret: text)
    ensures ret == CommaMembers(members, indent)
    decreases members, 0
  {
    hide Print, StrToStr;
    var it1 := Spaces(2 * indent);
    ret := "";
    var m := members;
    while m.Member?
      invariant CommaMembers(members, indent) == ret + CommaMembers(m, indent)
      invariant m == members || m < members
      decreases m
    {
      var key := Quote(m.key);
      var value := ToText(m.value, indent + 2);
      var one := it1 + "  " + key + " : " + value + ",\n";
      Reassociate(ret, one, CommaMembers(m.next, indent));
      ret := ret + one;
      m := m.next;
    }
    assert ret + "" == ret;
  }

  method ArrayText(elements: Elements, indent: nat) returns (ret: text)
    ensures ret == Print(JArray(elements), indent)
    decreases elements, 1
  {
    hide CommaElements, PrintElements;
    var it1 := Spaces(2 * indent);
    ret := it1 + "[\n";
    ghost var head := ret;
    var inner := ElementsText(elements, indent);
    ret := ret + inner;
    LastCommaElement(elements, indent);
    if elements.Element? {
      EraseBehind(head, inner);
      ret := ret[..|ret| - 2] + ret[|ret| - 1..];
    } else {
      NothingInside(indent);
    }
    ret := ret + it1 + "]";
  }

  method ElementsText(elements: Elements, indent: nat) returns (ret: text)
    ensures ret == CommaElements(elements, indent)
    decreases elements, 0
  {
    hide Print, StrToStr;
    var it1 := Spaces(2 * indent);
    ret := "";
    var e := elements;
    while e.Element?
      invariant CommaElements(elements, indent) == ret + CommaElements(e, indent)
      invariant e == elements || e < elements
      decreases e
    {
      var value := ToText(e.value, indent + 2);
      var one := it1 + "  " + value + ",\n";
      Reassociate(ret, one, CommaElements(e.next, indent));
      ret := ret + one;
      e := e.next;
    }
    assert ret + "" == ret;
  }

  lemma NothingInside(indent: nat)
    ensures CommaMembers(NoMember, indent) == PrintMembers(NoMember, indent) == ""
    ensures CommaElements(NoElement, indent) == PrintElements(NoElement, indent) == ""
  {
  }

  lemma Reassociate(a: text, b: text, c: text)
    ensures a + (b + c) == (a + b) + c
  {
  }
}
