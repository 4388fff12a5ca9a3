/**
 JSON trees: the tokens and the recursive descent of the parser, the printer, and the
 theorem that a printed tree is parsed to itself.

 The members of an object are kept sorted by key, those with equal keys in the order they
 came, as `std::multimap` keeps them.
 */
module JsonTree {
  import opened Octets
  import opened JsonText
  import opened JsonNumber

  datatype Json =
    | JString(val: text)
    | JNumber(n: Number)
    | JBool(b: bool)
    | JNull
    | JObject(members: Members)
    | JArray(elements: Elements)

  datatype Members = NoMember | Member(key: text, value: Json, next: Members)

  datatype Elements = NoElement | Element(value: Json, next: Elements)

  // ---------------------------------------------------------------- tokens

  datatype Token =
    | ObjectStart | ObjectEnd | ArrayStart | ArrayEnd | ValueSep | NameSep
    | StrToken | NumToken | TrueToken | FalseToken | NullToken | EndToken | Invalid

  /** A token, and the text from its first character on; a keyword is already behind. */
  datatype Lexed = Lexed(token: Token, rest: text)

  predicate IsSpace(c: char) { c == '\n' || c == '\r' || c == '\t' || c == ' ' }

  function SkipSpaces(s: text): (r: text)
    ensures |r| <= |s|
  {
    if !Eof(s) && IsSpace(s[0]) then SkipSpaces(s[1..]) else s
  }

  /** The rest of a line comment, up to the end of the line. */
  function LineComment(s: text): (r: text)
    ensures |r| <= |s|
  {
    if Eof(s) || s[0] == '\n' then s else LineComment(s[1..])
  }

  /** The text behind a block comment, if it is closed. */
  function BlockComment(s: text, star: bool): (r: Option<text>)
    ensures r.Some? ==> |r.value| < |s|
  {
    if Eof(s) then None
    else if s[0] == '/' && star then Some(s[1..])
    else BlockComment(s[1..], s[0] == '*')
  }

  /** Where the cursor ends up in a block comment that is not closed. */
  function BlockEnd(s: text): (r: text)
    ensures |r| <= |s|
  {
    if Eof(s) then s else BlockEnd(s[1..])
  }

  datatype Comment = Comment(ok: bool, rest: text)

  /** `skipComments`, on a text that starts with a solidus. */
  function SkipComment(s: text): (c: Comment)
    requires s != []
    ensures |c.rest| < |s|
  {
    var t := s[1..];
    if Eof(t) then Comment(false, t)
    else if t[0] == '/' then Comment(true, LineComment(t[1..]))
    else if t[0] == '*' then
      var r := BlockComment(t[1..], false);
      if r.Some? then Comment(true, r.value) else Comment(false, BlockEnd(t[1..]))
    else Comment(false, t)
  }

  /** `getKey`. */
  function Keyword(s: text, key: text): (l: Lexed)
    ensures |l.rest| <= |s| && !IsMark(l.token)
    decreases |s|
  {
    if Delimits(s) then
      Lexed(if key == "true" then TrueToken else if key == "false" then FalseToken
            else if key == "null" then NullToken else Invalid, s)
    else if !('a' <= s[0] <= 'z') then Lexed(Invalid, s)
    else Keyword(s[1..], key + [s[0]])
  }

  function Mark(c: char): Token {
    match c
    case '{' => ObjectStart
    case '}' => ObjectEnd
    case '[' => ArrayStart
    case ']' => ArrayEnd
    case ',' => ValueSep
    case ':' => NameSep
    case '"' => StrToken
    case '-' => NumToken
    case _ => if IsDigit(c) then NumToken else Invalid
  }

  /** The tokens of a single character, and those that are only marked by one. */
  predicate IsMark(t: Token) {
    t.ObjectStart? || t.ObjectEnd? || t.ArrayStart? || t.ArrayEnd? || t.ValueSep? || t.NameSep? || t.StrToken? || t.NumToken?
  }

  predicate AtMark(l: Lexed) { IsMark(l.token) ==> l.rest != [] }

  /** `getToken`. */
  function GetToken(s: text, comments: bool): (l: Lexed)
    ensures |l.rest| <= |s| && AtMark(l)
    decreases |s|
  {
    var t := SkipSpaces(s);
    if Eof(t) then Lexed(EndToken, t)
    else if t[0] == '/' then
      if !comments then Lexed(Invalid, t)
      else
        var c := SkipComment(t);
        if c.ok then GetToken(c.rest, comments) else Lexed(Invalid, c.rest)
    else if 'a' <= t[0] <= 'z' then Keyword(t, "")
    else Lexed(Mark(t[0]), t)
  }

  // ---------------------------------------------------------------- parsing

  /** The order of `std::string`: octet by octet. */
  predicate Less(a: text, b: text) {
    b != [] && (a == [] || a[0] < b[0] || (a[0] == b[0] && Less(a[1..], b[1..])))
  }

  /** `multimap::insert`: behind the members whose key is not greater. */
  function Insert(ms: Members, key: text, value: Json): Members {
    match ms
    case NoMember => Member(key, value, NoMember)
    case Member(k, v, next) =>
      if Less(key, k) then Member(key, value, ms) else Member(k, v, Insert(next, key, value))
  }

  function Append(es: Elements, value: Json): Elements {
    match es
    case NoElement => Element(value, NoElement)
    case Element(v, next) => Element(v, Append(next, value))
  }

  /** `ParserCreate` and `parserVal` for a token at the start of `s`. */
  function ParseValue(tk: Token, s: text, comments: bool): (r: Parsed<Json>)
    requires AtMark(Lexed(tk, s))
    ensures r.POk? ==> |r.rest| <= |s|
    decreases |s|, 0
  {
    match tk
    case ObjectStart => ParseObject(s[1..], comments)
    case ArrayStart => ParseArray(s[1..], comments)
    case StrToken =>
      var r := StrBody(s[1..], None);
      if r.PFail? then PFail else POk(JString(r.val), r.rest)
    case NumToken =>
      var r := GetNum(s);
      if r.PFail? then PFail else POk(JNumber(r.val), r.rest)
    case TrueToken => POk(JBool(true), s)
    case FalseToken => POk(JBool(false), s)
    case NullToken => POk(JNull, s)
    case _ => PFail
  }

  /** The first token is only looked at to see if the object is empty. */
  function ParseObject(s: text, comments: bool): (r: Parsed<Json>)
    ensures r.POk? ==> |r.rest| <= |s|
    decreases |s|, 2
  {
    var l := GetToken(s, comments);
    if l.token.ObjectEnd? then POk(JObject(NoMember), l.rest[1..]) else ParseMembers(l.rest, NoMember, comments)
  }

  /** A key and the colon behind it. */
  function ParseKey(s: text, comments: bool): (r: Parsed<text>)
    ensures r.POk? ==> |r.rest| < |s|
  {
    var l := GetToken(s, comments);
    if !l.token.StrToken? then PFail
    else
      var key := StrBody(l.rest[1..], None);
      if key.PFail? then PFail
      else
        var sep := GetToken(key.rest, comments);
        if sep.token.NameSep? then POk(key.val, sep.rest[1..]) else PFail
  }

  function ParseMembers(s: text, ms: Members, comments: bool): (r: Parsed<Json>)
    ensures r.POk? ==> |r.rest| <= |s|
    decreases |s|, 1
  {
    var key := ParseKey(s, comments);
    if key.PFail? then PFail
    else
      var first := GetToken(key.rest, comments);
      var value := ParseValue(first.token, first.rest, comments);
      if value.PFail? then PFail
      else
        var all := Insert(ms, key.val, value.val);
        var after := GetToken(value.rest, comments);
        if after.token.ObjectEnd? then POk(JObject(all), after.rest[1..])
        else if after.token.ValueSep? then ParseMembers(after.rest[1..], all, comments)
        else PFail
  }

  function ParseArray(s: text, comments: bool): (r: Parsed<Json>)
    ensures r.POk? ==> |r.rest| <= |s|
    decreases |s|, 2
  {
    var l := GetToken(s, comments);
    if l.token.ArrayEnd? then POk(JArray(NoElement), l.rest[1..])
    else ParseElements(l.token, l.rest, NoElement, comments)
  }

  function ParseElements(tk: Token, s: text, es: Elements, comments: bool): (r: Parsed<Json>)
    requires AtMark(Lexed(tk, s))
    ensures r.POk? ==> |r.rest| <= |s|
    decreases |s|, 1
  {
    var value := ParseValue(tk, s, comments);
    if value.PFail? then PFail
    else
      var all := Append(es, value.val);
      var after := GetToken(value.rest, comments);
      if after.token.ArrayEnd? then POk(JArray(all), after.rest[1..])
      else if after.token.ValueSep? then
        var next := GetToken(after.rest[1..], comments);
        ParseElements(next.token, next.rest, all, comments)
      else PFail
  }

  datatype Outcome = Refused | Empty | Tree(json: Json)

  /** `skipBOM`. */
  function SkipMark(s: text): text {
    if |s| >= 3 && s[..3] == [Octet(0xef), Octet(0xbb), Octet(0xbf)] then s[3..] else s
  }

  /** `parseBuffer`. */
  function ParseText(s: text, comments: bool): Outcome {
    if s == [] then Refused
    else
      var l := GetToken(SkipMark(s), comments);
      if l.token.EndToken? then Empty
      else
        var r := ParseValue(l.token, l.rest, comments);
        if r.PFail? || !GetToken(r.rest, comments).token.EndToken? then Refused else Tree(r.val)
  }

  // ---------------------------------------------------------------- printing

  function Spaces(n: nat): (s: text)
    ensures |s| == n && forall c :: c in s ==> c == ' '
  {
    seq(n, _ => ' ')
  }

  /** `toString`. */
  function Print(j: Json, indent: nat): text {
    match j
    case JString(val) => StrToStr(val)
    case JNumber(n) => n.val
    case JBool(b) => if b then "true" else "false"
    case JNull => "null"
    case JObject(members) =>
      Spaces(2 * indent) + "{\n" + PrintMembers(members, indent) + Spaces(2 * indent) + "}"
    case JArray(elements) =>
      Spaces(2 * indent) + "[\n" + PrintElements(elements, indent) + Spaces(2 * indent) + "]"
  }

  /** The comma behind the last member is left out. */
  function PrintMembers(ms: Members, indent: nat): text {
    match ms
    case NoMember => ""
    case Member(key, value, next) =>
      Spaces(2 * indent) + "  " + StrToStr(key) + " : " + Print(value, indent + 2)
      + (if next.NoMember? then "\n" else ",\n") + PrintMembers(next, indent)
  }

  function PrintElements(es: Elements, indent: nat): text {
    match es
    case NoElement => ""
    case Element(value, next) =>
      Spaces(2 * indent) + "  " + Print(value, indent + 2)
      + (if next.NoElement? then "\n" else ",\n") + PrintElements(next, indent)
  }

  // ---------------------------------------------------------------- tokens of a printed tree

  predicate AllSpaces(w: text) { forall c :: c in w ==> IsSpace(c) }

  lemma {:induction false} SkipBehind(w: text, s: text)
    requires AllSpaces(w)
    ensures SkipSpaces(w + s) == SkipSpaces(s)
    decreases |w|
  {
    if w == [] {
      assert w + s == s;
    } else {
      assert w[0] in w && (w + s)[0] == w[0] && (w + s)[1..] == w[1..] + s;
      SkipBehind(w[1..], s);
    }
  }

  lemma TokenBehind(w: text, s: text, comments: bool)
    requires AllSpaces(w)
    ensures GetToken(w + s, comments) == GetToken(s, comments)
  {
    SkipBehind(w, s);
  }

  predicate MarkChar(c: char) { IsMark(Mark(c)) }

  lemma TokenAt(s: text, comments: bool)
    requires s != [] && MarkChar(s[0])
    ensures GetToken(s, comments) == Lexed(Mark(s[0]), s)
  {
    assert SkipSpaces(s) == s;
  }

  lemma TokenMark(w: text, c: char, s: text, comments: bool)
    requires AllSpaces(w) && MarkChar(c)
    ensures GetToken(w + ([c] + s), comments) == Lexed(Mark(c), [c] + s)
  {
    TokenBehind(w, [c] + s, comments);
    TokenAt([c] + s, comments);
  }

  predicate Letters(w: text) { forall c :: c in w ==> 'a' <= c <= 'z' }

  lemma {:induction false} KeywordReads(w: text, key: text, tail: text)
    requires Letters(w) && Delimits(tail)
    ensures Keyword(w + tail, key) == Keyword(tail, key + w)
    decreases |w|
  {
    if w == [] {
      assert w + tail == tail && key + w == key;
    } else {
      assert w[0] in w && (w + tail)[0] == w[0] && (w + tail)[1..] == w[1..] + tail;
      assert forall c :: c in w[1..] ==> c in w;
      KeywordReads(w[1..], key + [w[0]], tail);
      assert key + [w[0]] + w[1..] == key + w;
    }
  }

  lemma TokenWord(w: text, tail: text, comments: bool)
    requires w != [] && Letters(w) && Delimits(tail)
    ensures GetToken(w + tail, comments) == Keyword(tail, w)
  {
    var s := w + tail;
    assert s[0] == w[0] && w[0] in w;
    assert SkipSpaces(s) == s;
    KeywordReads(w, "", tail);
    assert "" + w == w;
  }

  // ---------------------------------------------------------------- sorted members

  lemma {:induction false} NotLessTrans(a: text, b: text, c: text)
    requires !Less(b, a) && !Less(c, b)
    ensures !Less(c, a)
    decreases |a|
  {
    if a != [] && b != [] && c != [] && a[0] == b[0] && b[0] == c[0] { NotLessTrans(a[1..], b[1..], c[1..]); }
  }

  predicate Sorted(ms: Members) {
    match ms
    case NoMember => true
    case Member(key, _, next) => (next.Member? ==> !Less(next.key, key)) && Sorted(next)
  }

  /** No key of the members is greater. */
  predicate AtMost(ms: Members, key: text) {
    match ms
    case NoMember => true
    case Member(k, _, next) => !Less(key, k) && AtMost(next, key)
  }

  function Concat(a: Members, b: Members): Members {
    match a
    case NoMember => b
    case Member(key, value, next) => Member(key, value, Concat(next, b))
  }

  lemma {:induction false} InsertLast(ms: Members, key: text, value: Json, next: Members)
    requires AtMost(ms, key)
    ensures Concat(Insert(ms, key, value), next) == Concat(ms, Member(key, value, next))
    decreases ms
  {
    match ms
    case NoMember =>
      assert Concat(Member(key, value, NoMember), next) == Member(key, value, Concat(NoMember, next));
    case Member(_, _, rest) => InsertLast(rest, key, value, next);
  }

  lemma {:induction false} InsertAtMost(ms: Members, key: text, value: Json, bound: text)
    requires AtMost(ms, key) && !Less(bound, key)
    ensures AtMost(Insert(ms, key, value), bound)
    decreases ms
  {
    match ms
    case NoMember => assert AtMost(Member(key, value, NoMember), bound);
    case Member(k, _, rest) =>
      NotLessTrans(k, key, bound);
      InsertAtMost(rest, key, value, bound);
  }

  function Join(a: Elements, b: Elements): Elements {
    match a
    case NoElement => b
    case Element(value, next) => Element(value, Join(next, b))
  }

  lemma {:induction false} AppendLast(es: Elements, value: Json, next: Elements)
    ensures Join(Append(es, value), next) == Join(es, Element(value, next))
    decreases es
  {
    match es
    case NoElement => assert Join(Element(value, NoElement), next) == Element(value, Join(NoElement, next));
    case Element(_, rest) => AppendLast(rest, value, next);
  }

  lemma {:induction false} ConcatNone(ms: Members)
    ensures Concat(ms, NoMember) == ms
    decreases ms
  {
    match ms
    case NoMember =>
    case Member(_, _, next) => ConcatNone(next);
  }

  lemma {:induction false} JoinNone(es: Elements)
    ensures Join(es, NoElement) == es
    decreases es
  {
    match es
    case NoElement =>
    case Element(_, next) => JoinNone(next);
  }

  // ---------------------------------------------------------------- a tree comes back

  ghost predicate IsUtf8(s: text) { exists cs :: Scalars(cs) && s == Utf8Text(cs) }

  /** A tree with UTF-8 texts, numbers as the lexer stores them, and sorted members. */
  ghost predicate Printable(j: Json) {
    match j
    case JString(val) => IsUtf8(val)
    case JNumber(n) => NumberForm(n)
    case JObject(ms) => Sorted(ms) && PrintableMembers(ms)
    case JArray(es) => PrintableElements(es)
    case _ => true
  }

  ghost predicate PrintableMembers(ms: Members) {
    match ms
    case NoMember => true
    case Member(key, value, next) => IsUtf8(key) && Printable(value) && PrintableMembers(next)
  }

  ghost predicate PrintableElements(es: Elements) {
    match es
    case NoElement => true
    case Element(value, next) => Printable(value) && PrintableElements(next)
  }

  // The printer, with the text that follows

  function PrintTo(j: Json, indent: nat, tail: text): text {
    match j
    case JObject(ms) => Spaces(2 * indent) + (['{'] + (['\n'] + MembersTo(ms, indent, Spaces(2 * indent) + (['}'] + tail))))
    case JArray(es) => Spaces(2 * indent) + (['['] + (['\n'] + ElementsTo(es, indent, Spaces(2 * indent) + ([']'] + tail))))
    case _ => Print(j, indent) + tail
  }

  function Separator(last: bool, s: text): text { if last then ['\n'] + s else [','] + (['\n'] + s) }

  function MembersTo(ms: Members, indent: nat, tail: text): text {
    match ms
    case NoMember => tail
    case Member(key, value, next) =>
      Spaces(2 * indent + 2) + (StrToStr(key) + (Spaces(1) + ([':'] + (Spaces(1)
      + PrintTo(value, indent + 2, Separator(next.NoMember?, MembersTo(next, indent, tail)))))))
  }

  function ElementsTo(es: Elements, indent: nat, tail: text): text {
    match es
    case NoElement => tail
    case Element(value, next) =>
      Spaces(2 * indent + 2) + PrintTo(value, indent + 2, Separator(next.NoElement?, ElementsTo(next, indent, tail)))
  }

  /** What reading one value of a text means. */
  predicate Reads(s: text, comments: bool, j: Json, tail: text) {
    var l := GetToken(s, comments);
    ParseValue(l.token, l.rest, comments) == POk(j, tail)
  }

  lemma ScalarBack(j: Json, indent: nat, tail: text, comments: bool)
    requires Printable(j) && Delimits(tail) && !j.JObject? && !j.JArray?
    ensures Reads(PrintTo(j, indent, tail), comments, j, tail)
    ensures !GetToken(PrintTo(j, indent, tail), comments).token.ArrayEnd?
  {
    hide StrBody, GetNum, StrToStr, Utf8Text, NumberForm;
    var s := PrintTo(j, indent, tail);
    match j
    case JString(val) =>
      KeyBack(val, tail, comments);
    case JNumber(n) =>
      NumberBack(n, tail);
      NumberFirst(n);
      TokenAt(s, comments);
    case JBool(b) => TokenWord(if b then "true" else "false", tail, comments);
    case JNull => TokenWord("null", tail, comments);
  }

  lemma NumberFirst(n: Number)
    requires NumberForm(n)
    ensures n.val != [] && Mark(n.val[0]) == NumToken
  {
  }

  lemma SpacesAre(n: nat)
    ensures AllSpaces(Spaces(n)) && AllSpaces(['\n'])
  {
  }

  lemma {:induction false} ValueBack(j: Json, indent: nat, tail: text, comments: bool)
    requires Printable(j) && Delimits(tail)
    ensures Reads(PrintTo(j, indent, tail), comments, j, tail)
    ensures !GetToken(PrintTo(j, indent, tail), comments).token.ArrayEnd?
    decreases j, 1
  {
    hide GetToken, ParseMembers, ParseElements, MembersTo, ElementsTo;
    SpacesAre(2 * indent);
    match j
    case JObject(ms) =>
      var close := Spaces(2 * indent) + (['}'] + tail);
      var inner := ['\n'] + MembersTo(ms, indent, close);
      TokenMark(Spaces(2 * indent), '{', inner, comments);
      assert (['{'] + inner)[1..] == inner;
      ObjectBack(ms, indent, tail, comments);
    case JArray(es) =>
      var close := Spaces(2 * indent) + ([']'] + tail);
      var inner := ['\n'] + ElementsTo(es, indent, close);
      TokenMark(Spaces(2 * indent), '[', inner, comments);
      assert (['['] + inner)[1..] == inner;
      ArrayBack(es, indent, tail, comments);
    case _ => ScalarBack(j, indent, tail, comments);
  }

  lemma {:induction false} ObjectBack(ms: Members, indent: nat, tail: text, comments: bool)
    requires Sorted(ms) && PrintableMembers(ms)
    ensures ParseObject(['\n'] + MembersTo(ms, indent, Spaces(2 * indent) + (['}'] + tail)), comments) == POk(JObject(ms), tail)
    decreases ms, 1
  {
    hide GetToken, ParseMembers;
    SpacesAre(2 * indent);
    var close := Spaces(2 * indent) + (['}'] + tail);
    var inner := MembersTo(ms, indent, close);
    TokenBehind(['\n'], inner, comments);
    if ms.NoMember? {
      TokenMark(Spaces(2 * indent), '}', tail, comments);
      assert (['}'] + tail)[1..] == tail;
    } else {
      FirstKey(ms, indent, close, comments);
      MembersBack(ms, indent, NoMember, tail, comments);
    }
  }

  /** The key of a member is the next token, and is found there again. */
  lemma FirstKey(ms: Members, indent: nat, close: text, comments: bool)
    requires ms.Member?
    ensures var s := MembersTo(ms, indent, close);
      var l := GetToken(s, comments);
      l.token.StrToken? && l.rest == s[2 * indent + 2..] && GetToken(l.rest, comments) == l
  {
    hide GetToken, PrintTo;
    var n := 2 * indent + 2;
    SpacesAre(n);
    var s := MembersTo(ms, indent, close);
    var t := s[n..];
    assert s == Spaces(n) + t;
    assert t[0] == '"';
    TokenBehind(Spaces(n), t, comments);
    TokenAt(t, comments);
  }

  /** One member, once its key and its value are read. */
  lemma MemberStep(t: text, acc: Members, comments: bool, key: text, a1: text, a2: text, value: Json, a3: text)
    requires GetToken(t, comments) == Lexed(StrToken, t) && t != [] && StrBody(t[1..], None) == POk(key, a1)
    requires GetToken(a1, comments) == Lexed(NameSep, a2) && a2 != [] && Reads(a2[1..], comments, value, a3)
    ensures var after, all := GetToken(a3, comments), Insert(acc, key, value);
      ParseMembers(t, acc, comments)
      == if after.token.ObjectEnd? then POk(JObject(all), after.rest[1..])
         else if after.token.ValueSep? then ParseMembers(after.rest[1..], all, comments)
         else PFail
  {
    hide GetToken, StrBody, ParseValue, Insert;
  }

  /** Only the next token matters. */
  lemma SameToken(x: text, y: text, acc: Members, comments: bool)
    requires GetToken(x, comments) == GetToken(y, comments)
    ensures ParseMembers(x, acc, comments) == ParseMembers(y, acc, comments)
  {
    hide GetToken, StrBody, ParseValue, Insert;
  }

  lemma {:induction false} MembersBack(ms: Members, indent: nat, acc: Members, tail: text, comments: bool)
    requires ms.Member? && Sorted(ms) && PrintableMembers(ms) && AtMost(acc, ms.key)
    ensures var s := MembersTo(ms, indent, Spaces(2 * indent) + (['}'] + tail));
      ParseMembers(s[2 * indent + 2..], acc, comments) == POk(JObject(Concat(acc, ms)), tail)
    decreases ms, 0
  {
    hide GetToken, StrBody, StrToStr, Utf8Text, ParseMembers, PrintTo, Less, Insert, Concat;
    var close := Spaces(2 * indent) + (['}'] + tail);
    var key, value, next := ms.key, ms.value, ms.next;
    var more := MembersTo(next, indent, close);
    var a3 := Separator(next.NoMember?, more);
    var v := PrintTo(value, indent + 2, a3);
    var a2 := [':'] + (Spaces(1) + v);
    var t := StrToStr(key) + (Spaces(1) + a2);
    assert MembersTo(ms, indent, close)[2 * indent + 2..] == t;
    KeyBack(key, Spaces(1) + a2, comments);
    SpacesAre(1);
    TokenMark(Spaces(1), ':', Spaces(1) + v, comments);
    assert a2[1..] == Spaces(1) + v;
    TokenBehind(Spaces(1), v, comments);
    ValueBack(value, indent + 2, a3, comments);
    MemberStep(t, acc, comments, key, Spaces(1) + a2, a2, value, a3);
    InsertLast(acc, key, value, next);
    AfterMember(next, indent, more, tail, comments);
    if next.NoMember? {
      ConcatNone(Insert(acc, key, value));
    } else {
      FirstKey(next, indent, close, comments);
      SameToken(['\n'] + more, more[2 * indent + 2..], Insert(acc, key, value), comments);
      InsertAtMost(acc, key, value, next.key);
      MembersBack(next, indent, Insert(acc, key, value), tail, comments);
    }
  }

  lemma KeyBack(key: text, a1: text, comments: bool)
    requires IsUtf8(key)
    ensures var t := StrToStr(key) + a1;
      t != [] && GetToken(t, comments) == Lexed(StrToken, t) && StrBody(t[1..], None) == POk(key, a1)
  {
    hide StrBody, Utf8Text, EscapeText, GetToken;
    var cs :| Scalars(cs) && key == Utf8Text(cs);
    StringBack(cs, a1);
    TokenAt(StrToStr(key) + a1, comments);
  }

  /** Behind a member comes the end of the object, or a comma and the next member. */
  lemma AfterMember(next: Members, indent: nat, more: text, tail: text, comments: bool)
    requires more == MembersTo(next, indent, Spaces(2 * indent) + (['}'] + tail))
    ensures next.NoMember? ==> GetToken(Separator(true, more), comments) == Lexed(ObjectEnd, ['}'] + tail)
    ensures GetToken(Separator(false, more), comments) == Lexed(ValueSep, [','] + (['\n'] + more))
    ensures GetToken(['\n'] + more, comments) == GetToken(more, comments)
    ensures (['}'] + tail)[1..] == tail && ([','] + (['\n'] + more))[1..] == ['\n'] + more
  {
    hide GetToken;
    SpacesAre(2 * indent);
    TokenBehind(['\n'], more, comments);
    TokenMark(Spaces(2 * indent), '}', tail, comments);
    TokenAt([','] + (['\n'] + more), comments);
  }

  lemma {:induction false} ArrayBack(es: Elements, indent: nat, tail: text, comments: bool)
    requires PrintableElements(es)
    ensures ParseArray(['\n'] + ElementsTo(es, indent, Spaces(2 * indent) + ([']'] + tail)), comments) == POk(JArray(es), tail)
    decreases es, 1
  {
    hide GetToken, ParseElements, PrintTo;
    SpacesAre(2 * indent);
    var close := Spaces(2 * indent) + ([']'] + tail);
    var inner := ElementsTo(es, indent, close);
    TokenBehind(['\n'], inner, comments);
    if es.NoElement? {
      TokenMark(Spaces(2 * indent), ']', tail, comments);
      assert ([']'] + tail)[1..] == tail;
    } else {
      ElementsBack(es, indent, NoElement, tail, comments);
    }
  }

  lemma ElementStep(tk: Token, t: text, acc: Elements, comments: bool, value: Json, a1: text)
    requires AtMark(Lexed(tk, t)) && ParseValue(tk, t, comments) == POk(value, a1)
    ensures var after, all := GetToken(a1, comments), Append(acc, value);
      ParseElements(tk, t, acc, comments)
      == if after.token.ArrayEnd? then POk(JArray(all), after.rest[1..])
         else if after.token.ValueSep? then
           ParseElements(GetToken(after.rest[1..], comments).token, GetToken(after.rest[1..], comments).rest, all, comments)
         else PFail
  {
    hide GetToken, ParseValue, Append;
  }

  lemma {:induction false} ElementsBack(es: Elements, indent: nat, acc: Elements, tail: text, comments: bool)
    requires es.Element? && PrintableElements(es)
    ensures var l := GetToken(ElementsTo(es, indent, Spaces(2 * indent) + ([']'] + tail)), comments);
      && !l.token.ArrayEnd?
      && ParseElements(l.token, l.rest, acc, comments) == POk(JArray(Join(acc, es)), tail)
    decreases es, 0
  {
    hide GetToken, ParseValue, ParseElements, PrintTo, Append, Join;
    var close := Spaces(2 * indent) + ([']'] + tail);
    var more := ElementsTo(es.next, indent, close);
    var a1 := Separator(es.next.NoElement?, more);
    var v := PrintTo(es.value, indent + 2, a1);
    SpacesAre(2 * indent + 2);
    TokenBehind(Spaces(2 * indent + 2), v, comments);
    ValueBack(es.value, indent + 2, a1, comments);
    var l := GetToken(v, comments);
    ElementStep(l.token, l.rest, acc, comments, es.value, a1);
    AppendLast(acc, es.value, es.next);
    AfterElement(es.next, indent, more, tail, comments);
    if es.next.NoElement? {
      JoinNone(Append(acc, es.value));
    } else {
      ElementsBack(es.next, indent, Append(acc, es.value), tail, comments);
    }
  }

  lemma AfterElement(next: Elements, indent: nat, more: text, tail: text, comments: bool)
    requires more == ElementsTo(next, indent, Spaces(2 * indent) + ([']'] + tail))
    ensures next.NoElement? ==> GetToken(Separator(true, more), comments) == Lexed(ArrayEnd, [']'] + tail)
    ensures GetToken(Separator(false, more), comments) == Lexed(ValueSep, [','] + (['\n'] + more))
    ensures GetToken(['\n'] + more, comments) == GetToken(more, comments)
    ensures ([']'] + tail)[1..] == tail && ([','] + (['\n'] + more))[1..] == ['\n'] + more
  {
    hide GetToken;
    SpacesAre(2 * indent);
    TokenBehind(['\n'], more, comments);
    TokenMark(Spaces(2 * indent), ']', tail, comments);
    TokenAt([','] + (['\n'] + more), comments);
  }

  // The two forms of the printer

  lemma {:induction false} PrintIs(j: Json, indent: nat, tail: text)
    ensures PrintTo(j, indent, tail) == Print(j, indent) + tail
    decreases j
  {
    hide StrToStr;
    var sp := Spaces(2 * indent);
    match j
    case JObject(ms) =>
      MembersIs(ms, indent, sp + (['}'] + tail));
      Brackets(sp, '{', PrintMembers(ms, indent), '}', tail);
    case JArray(es) =>
      ElementsIs(es, indent, sp + ([']'] + tail));
      Brackets(sp, '[', PrintElements(es, indent), ']', tail);
    case _ =>
  }

  lemma Brackets(sp: text, open: char, inner: text, close: char, tail: text)
    ensures sp + ([open] + (['\n'] + (inner + (sp + ([close] + tail)))))
         == sp + [open, '\n'] + inner + sp + [close] + tail
  {
  }

  lemma {:induction false} MembersIs(ms: Members, indent: nat, tail: text)
    ensures MembersTo(ms, indent, tail) == PrintMembers(ms, indent) + tail
    decreases ms
  {
    hide StrToStr, Print, PrintTo;
    match ms
    case NoMember =>
    case Member(key, value, next) =>
      MembersIs(next, indent, tail);
      var last, more := next.NoMember?, PrintMembers(next, indent);
      PrintIs(value, indent + 2, Separator(last, more + tail));
      SpacesMore(2 * indent);
      MemberParts(Spaces(2 * indent), StrToStr(key), Print(value, indent + 2), last, more, tail);
  }

  lemma {:induction false} ElementsIs(es: Elements, indent: nat, tail: text)
    ensures ElementsTo(es, indent, tail) == PrintElements(es, indent) + tail
    decreases es
  {
    hide Print, PrintTo;
    match es
    case NoElement =>
    case Element(value, next) =>
      ElementsIs(next, indent, tail);
      var last, more := next.NoElement?, PrintElements(next, indent);
      PrintIs(value, indent + 2, Separator(last, more + tail));
      SpacesMore(2 * indent);
      ElementParts(Spaces(2 * indent), Print(value, indent + 2), last, more, tail);
  }

  lemma SpacesMore(n: nat)
    ensures Spaces(n + 2) == Spaces(n) + "  " && Spaces(1) == " "
  {
  }

  lemma MemberParts(sp: text, key: text, value: text, last: bool, more: text, tail: text)
    ensures (sp + "  ") + (key + (" " + ([':'] + (" " + (value + Separator(last, more + tail))))))
         == sp + "  " + key + " : " + value + (if last then "\n" else ",\n") + more + tail
  {
    var a, c := sp + "  ", [':'];
    var sep: text := if last then "\n" else ",\n";
    SepParts(last, more, tail);
    var b := value + (sep + (more + tail));
    assert " " + (c + (" " + b)) == " : " + b;
    assert a + (key + (" : " + b)) == a + key + " : " + value + sep + more + tail;
  }

  lemma ElementParts(sp: text, value: text, last: bool, more: text, tail: text)
    ensures (sp + "  ") + (value + Separator(last, more + tail))
         == sp + "  " + value + (if last then "\n" else ",\n") + more + tail
  {
    SepParts(last, more, tail);
  }

  lemma SepParts(last: bool, more: text, tail: text)
    ensures Separator(last, more + tail) == (if last then "\n" else ",\n") + (more + tail)
  {
  }

  lemma FirstChar(j: Json, indent: nat)
    requires Printable(j)
    ensures Print(j, indent) != [] && Print(j, indent)[0] != Octet(0xef)
  {
    hide EscapeText;
    if j.JNumber? { NumberFirst(j.n); }
  }

  /** Printing a tree at any indent and parsing the text gives the same tree back. */
  lemma TreeBack(j: Json, indent: nat, comments: bool)
    requires Printable(j)
    ensures ParseText(Print(j, indent), comments) == Tree(j)
  {
    hide Print, PrintTo, GetToken, ParseValue, Printable;
    ValueBack(j, indent, [], comments);
    PrintIs(j, indent, []);
    assert Print(j, indent) + [] == Print(j, indent);
    FirstChar(j, indent);
    EndAgain(comments);
    ReadsNotEnd(Print(j, indent), comments, j, []);
  }

  lemma EndAgain(comments: bool)
    ensures GetToken([], comments).token == EndToken
  {
  }

  lemma ReadsNotEnd(s: text, comments: bool, j: Json, tail: text)
    requires Reads(s, comments, j, tail)
    ensures !GetToken(s, comments).token.EndToken?
  {
    hide GetToken;
  }

  // ---------------------------------------------------------------- what the parser makes

  /** Members are sorted, and numbers have the form of `NumberForm`, at every level. */
  predicate Tidy(j: Json) {
    match j
    case JNumber(n) => NumberForm(n)
    case JObject(ms) => Sorted(ms) && TidyMembers(ms)
    case JArray(es) => TidyElements(es)
    case _ => true
  }

  predicate TidyMembers(ms: Members) {
    match ms
    case NoMember => true
    case Member(_, value, next) => Tidy(value) && TidyMembers(next)
  }

  predicate TidyElements(es: Elements) {
    match es
    case NoElement => true
    case Element(value, next) => Tidy(value) && TidyElements(next)
  }

  lemma {:induction false} LessAsym(a: text, b: text)
    requires Less(a, b)
    ensures !Less(b, a)
    decreases |a|
  {
    if a != [] && a[0] == b[0] { LessAsym(a[1..], b[1..]); }
  }

  lemma {:induction false} InsertTidy(ms: Members, key: text, value: Json)
    requires Sorted(ms) && TidyMembers(ms) && Tidy(value)
    ensures Sorted(Insert(ms, key, value)) && TidyMembers(Insert(ms, key, value))
    decreases ms
  {
    match ms
    case NoMember => assert TidyMembers(Member(key, value, NoMember));
    case Member(k, v, next) => if Less(key, k) { LessAsym(key, k); } else { InsertTidy(next, key, value); }
  }

  lemma {:induction false} AppendTidy(es: Elements, value: Json)
    requires TidyElements(es) && Tidy(value)
    ensures TidyElements(Append(es, value))
    decreases es
  {
    match es
    case NoElement => assert TidyElements(Element(value, NoElement));
    case Element(_, next) => AppendTidy(next, value);
  }

  lemma {:induction false} ValueTidy(tk: Token, s: text, comments: bool)
    requires AtMark(Lexed(tk, s)) && ParseValue(tk, s, comments).POk?
    ensures Tidy(ParseValue(tk, s, comments).val)
    decreases |s|, 0
  {
    hide GetToken, ParseMembers, ParseElements, StrBody, GetNum, NumberForm;
    match tk
    case ObjectStart =>
      var l := GetToken(s[1..], comments);
      if !l.token.ObjectEnd? { MembersTidy(l.rest, NoMember, comments); }
    case ArrayStart =>
      var l := GetToken(s[1..], comments);
      if !l.token.ArrayEnd? { ElementsTidy(l.token, l.rest, NoElement, comments); }
    case NumToken => AcceptedForm(s);
    case _ =>
  }

  lemma {:induction false} MembersTidy(s: text, ms: Members, comments: bool)
    requires Sorted(ms) && TidyMembers(ms) && ParseMembers(s, ms, comments).POk?
    ensures Tidy(ParseMembers(s, ms, comments).val)
    decreases |s|, 1
  {
    hide GetToken, ParseKey, ParseValue, Insert, Less;
    var key := ParseKey(s, comments);
    var first := GetToken(key.rest, comments);
    ValueTidy(first.token, first.rest, comments);
    var value := ParseValue(first.token, first.rest, comments);
    InsertTidy(ms, key.val, value.val);
    var after := GetToken(value.rest, comments);
    if after.token.ValueSep? { MembersTidy(after.rest[1..], Insert(ms, key.val, value.val), comments); }
  }

  lemma {:induction false} ElementsTidy(tk: Token, s: text, es: Elements, comments: bool)
    requires AtMark(Lexed(tk, s)) && TidyElements(es) && ParseElements(tk, s, es, comments).POk?
    ensures Tidy(ParseElements(tk, s, es, comments).val)
    decreases |s|, 1
  {
    hide GetToken, ParseValue, Append;
    ValueTidy(tk, s, comments);
    var value := ParseValue(tk, s, comments);
    AppendTidy(es, value.val);
    var after := GetToken(value.rest, comments);
    if after.token.ValueSep? {
      var next := GetToken(after.rest[1..], comments);
      ElementsTidy(next.token, next.rest, Append(es, value.val), comments);
    }
  }

  /** Whatever the text, the tree made from it has sorted members and numbers of the form
      of RFC 8259, with the places of their dots and exponents. */
  lemma ParsedTidy(s: text, comments: bool)
    requires ParseText(s, comments).Tree?
    ensures Tidy(ParseText(s, comments).json)
  {
    var l := GetToken(SkipMark(s), comments);
    ValueTidy(l.token, l.rest, comments);
  }

  // ---------------------------------------------------------------- unlike RFC 8259

  /** An object of section 4 of RFC 8259: its first token is its end or a name. */
  function StrictObject(s: text, comments: bool): Parsed<Json> {
    var l := GetToken(s, comments);
    if l.token.ObjectEnd? then POk(JObject(NoMember), l.rest[1..])
    else if l.token.StrToken? then ParseMembers(s, NoMember, comments)
    else PFail
  }

  /** A token that is a single character is still there, and is found again. */
  lemma {:induction false} MarkStays(s: text, comments: bool)
    ensures var l := GetToken(s, comments); IsMark(l.token) ==> GetToken(l.rest, comments) == l
    decreases |s|
  {
    var t := SkipSpaces(s);
    if !Eof(t) {
      if t[0] == '/' {
        var c := SkipComment(t);
        if comments && c.ok { MarkStays(c.rest, comments); }
      } else if MarkChar(t[0]) {
        TokenAt(t, comments);
      }
    }
  }

  /** Both readings of an object differ if and only if it starts with something else than a
      name or its end, and what follows that starts with a name and is accepted. Only a word
      can be skipped in this way. */
  lemma ObjectExactly(s: text, comments: bool)
    ensures var l := GetToken(s, comments);
      && (ParseObject(s, comments) != StrictObject(s, comments) <==>
           && !l.token.ObjectEnd? && !l.token.StrToken?
           && GetToken(l.rest, comments).token.StrToken? && ParseMembers(l.rest, NoMember, comments).POk?)
      && (ParseObject(s, comments) != StrictObject(s, comments) ==> !IsMark(l.token))
  {
    hide GetToken, IsMark;
    var l := GetToken(s, comments);
    MarkStays(s, comments);
    if l.token.StrToken? {
      StrIsMark(l.token);
      SameToken(s, l.rest, NoMember, comments);
    } else if !l.token.ObjectEnd? && !GetToken(l.rest, comments).token.StrToken? {
      NoName(l.rest, comments);
    }
  }

  lemma StrIsMark(t: Token)
    requires t.StrToken?
    ensures IsMark(t)
  {
  }

  lemma NoName(s: text, comments: bool)
    requires !GetToken(s, comments).token.StrToken?
    ensures ParseMembers(s, NoMember, comments) == PFail
  {
    hide GetToken, StrBody, ParseValue, Insert;
  }

  /** A text that is accepted against RFC 8259. */
  lemma WordInFront(comments: bool)
    ensures ParseText("{null \"a\":1}", comments) == Tree(JObject(Member("a", JNumber(Number("1", 0, 0)), NoMember)))
    ensures StrictObject("null \"a\":1}", comments) == PFail
  {
    hide GetToken, Keyword, ParseMembers;
    var t := "\"a\"" + (":" + ("1" + "}"));
    var s := "null" + (" " + t);
    OneMember(t, comments);
    TokenBehind(" ", t, comments);
    SameToken(" " + t, t, NoMember, comments);
    TokenWord("null", " " + t, comments);
    NullWord(" " + t);
    assert "{null \"a\":1}" == ['{'] + s && (['{'] + s)[1..] == s && s == "null \"a\":1}";
    TokenAt(['{'] + s, comments);
    EndAgain(comments);
  }

  lemma OneMember(t: text, comments: bool)
    requires t == "\"a\"" + (":" + ("1" + "}"))
    ensures ParseMembers(t, NoMember, comments) == POk(JObject(Member("a", JNumber(Number("1", 0, 0)), NoMember)), "")
  {
    hide GetToken, StrBody, GetNum, ParseMembers;
    var j, tail := JNumber(Number("1", 0, 0)), "}";
    var v := "1" + tail;
    var a := [':'] + v;
    NumberBack(j.n, tail);
    TokenAt(v, comments);
    assert t[0] == '"' && t[1..] == ['a'] + (['"'] + a);
    LetterA(['"'] + a, a);
    TokenAt(t, comments);
    TokenAt(a, comments);
    assert a[1..] == v;
    MemberStep(t, NoMember, comments, "a", a, a, j, tail);
    TokenAt(tail, comments);
    assert tail[1..] == "";
  }

  lemma LetterA(t: text, a: text)
    requires t == ['"'] + a
    ensures StrBody(['a'] + t, None) == POk("a", a)
  {
    PlainBack('a', t);
    assert t[0] == '"' && t[1..] == a;
    assert StrBody(t, None) == POk([], a);
    assert "a" + [] == "a";
  }

  lemma NullWord(t: text)
    requires Delimits(t)
    ensures Keyword(t, "null") == Lexed(NullToken, t)
  {
  }
}
