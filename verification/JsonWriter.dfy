/**
 The streaming writer `JsonProcToJson`: it puts a comma in front of every value but the
 first of a container, and keeps the flags of the containers around in a stack.

 A properly bracketed sequence of calls is given by what it describes: named values in an
 object, and unnamed ones in an array.
 */
module JsonWriting {
  import opened Octets
  import opened JsonText
  import opened JsonNumber
  import opened JsonTree

  datatype Node =
    | Raw(n: Number)               // procValue
    | Quoted(s: text)              // procString
    | Truth(b: bool)               // procBool
    | Object(items: Items)         // startObject ... closeObject
    | Array(values: Values)        // startArray ... closeArray

  datatype Items = NoItem | Item(name: text, node: Node, next: Items)

  datatype Values = NoValue | Value(node: Node, next: Values)

  // ---------------------------------------------------------------- the tree described

  function TreeOf(n: Node): Json {
    match n
    case Raw(n) => JNumber(n)
    case Quoted(s) => JString(s)
    case Truth(b) => JBool(b)
    case Object(items) => JObject(MembersOf(items, NoMember))
    case Array(values) => JArray(ElementsOf(values))
  }

  function MembersOf(items: Items, ms: Members): Members {
    match items
    case NoItem => ms
    case Item(name, node, next) => MembersOf(next, Insert(ms, name, TreeOf(node)))
  }

  function ElementsOf(values: Values): Elements {
    match values
    case NoValue => NoElement
    case Value(node, next) => Element(TreeOf(node), ElementsOf(next))
  }

  // ---------------------------------------------------------------- the text, in front of what follows

  function Margin(depth: nat, base: nat): text { Spaces(2 * depth + base) }

  /** A value behind its name. */
  function NamedTo(n: Node, depth: nat, base: nat, tail: text): text
    decreases n, 1
  {
    match n
    case Raw(num) => [' '] + (num.val + tail)
    case Quoted(s) => [' '] + (['"'] + (s + (['"'] + tail)))
    case Truth(b) => [' '] + ((if b then "true" else "false") + tail)
    case _ => ['\n'] + ContainerTo(n, depth, base, tail)
  }

  /** A value in an array, or an object on a line of its own. */
  function ContainerTo(n: Node, depth: nat, base: nat, tail: text): text
    decreases n, 0
  {
    match n
    case Object(items) =>
      Margin(depth, base) + (['{'] + ItemsTo(items, depth + 1, base, true, ['\n'] + (Margin(depth, base) + (['}'] + tail))))
    case Array(values) =>
      Margin(depth, base) + (['['] + ValuesTo(values, depth + 1, base, true, ['\n'] + (Margin(depth, base) + ([']'] + tail))))
    case Quoted(s) => Margin(depth, base) + (['"'] + (s + (['"'] + tail)))
    case _ => tail
  }

  /** `close`: the comma and the end of the line. */
  function CommaTo(first: bool, tail: text): text { if first then ['\n'] + tail else [','] + (['\n'] + tail) }

  function ItemsTo(items: Items, depth: nat, base: nat, first: bool, tail: text): text
    decreases items, 0
  {
    match items
    case NoItem => tail
    case Item(name, node, next) =>
      CommaTo(first, Margin(depth, base)
                     + NameTo(name, NamedTo(node, depth, base, ItemsTo(next, depth, base, false, tail))))
  }

  /** `startName`. */
  function NameTo(name: text, tail: text): text { ['"'] + (name + (['"'] + ([' '] + ([':'] + tail)))) }

  function ValuesTo(values: Values, depth: nat, base: nat, first: bool, tail: text): text
    decreases values, 0
  {
    match values
    case NoValue => tail
    case Value(node, next) =>
      CommaTo(first, ContainerTo(node, depth, base, ValuesTo(next, depth, base, false, tail)))
  }

  // ---------------------------------------------------------------- what can be written

  /** A text that needs no escape: UTF-8 without quotation mark, reverse solidus and zero. */
  ghost predicate Unescaped(s: text) {
    exists cs :: Scalars(cs) && s == Utf8Text(cs) && forall c :: c in cs ==> c != 0 && c != 0x22 && c != 0x5c
  }

  ghost predicate Writable(n: Node) {
    match n
    case Raw(num) => NumberForm(num)
    case Quoted(s) => Unescaped(s)
    case Truth(_) => true
    case Object(items) => WritableItems(items)
    case Array(values) => WritableValues(values)
  }

  ghost predicate WritableItems(items: Items) {
    match items
    case NoItem => true
    case Item(name, node, next) => Unescaped(name) && Writable(node) && WritableItems(next)
  }

  /** Arrays hold objects and strings. */
  ghost predicate WritableValues(values: Values) {
    match values
    case NoValue => true
    case Value(node, next) => (node.Object? || node.Quoted?) && Writable(node) && WritableValues(next)
  }

  // ---------------------------------------------------------------- reading it back

  lemma RawFirst(c: nat, more: text)
    requires Scalar(c)
    ensures RawLength(Utf8(c) + more) == |Utf8(c)|
  {
    var u := Utf8(c);
    var s := u + more;
    JoinBack(c);
    assert s[0] == u[0];
    assert forall i :: 1 <= i < |u| ==> s[i] == u[i];
  }

  lemma RawChar(c: nat, rest: text)
    requires Scalar(c) && c != 0 && c != 0x22 && c != 0x5c
    ensures StrBody(Utf8(c) + rest, None) == PrependText(Utf8(c), StrBody(rest, None))
  {
    var u := Utf8(c);
    var s := u + rest;
    RawFirst(c, rest);
    FirstOctet(c);
    assert s[..|u|] == u && s[|u|..] == rest && s[0] == u[0];
  }

  lemma FirstOctet(c: nat)
    requires Scalar(c) && c != 0 && c != 0x22 && c != 0x5c
    ensures Utf8(c) != [] && Utf8(c)[0] != '\0' && Utf8(c)[0] != '"' && Utf8(c)[0] != '\\'
  {
  }

  lemma {:induction false} RawBack(cs: seq<nat>, tail: text)
    requires Scalars(cs) && forall c :: c in cs ==> c != 0 && c != 0x22 && c != 0x5c
    ensures StrBody(Utf8Text(cs) + (['"'] + tail), None) == POk(Utf8Text(cs), tail)
    decreases |cs|
  {
    hide StrBody, Utf8;
    if cs == [] {
      NothingBack(tail);
      assert [] + (['"'] + tail) == [] + "\"" + tail;
    } else {
      var u, more := Utf8(cs[0]), Utf8Text(cs[1..]);
      assert cs[0] in cs && forall c :: c in cs[1..] ==> c in cs;
      RawBack(cs[1..], tail);
      RawChar(cs[0], more + (['"'] + tail));
      assert u + more + (['"'] + tail) == u + (more + (['"'] + tail));
    }
  }

  /** A name or a string in quotation marks, behind spaces. */
  lemma QuotedBack(w: text, s: text, tail: text, comments: bool)
    requires AllSpaces(w) && Unescaped(s)
    ensures var t := ['"'] + (s + (['"'] + tail));
      && GetToken(w + t, comments) == GetToken(t, comments) == Lexed(StrToken, t)
      && StrBody(t[1..], None) == POk(s, tail)
  {
    hide StrBody, Utf8Text, GetToken;
    var cs :| Scalars(cs) && s == Utf8Text(cs) && forall c :: c in cs ==> c != 0 && c != 0x22 && c != 0x5c;
    RawBack(cs, tail);
    var t := ['"'] + (s + (['"'] + tail));
    assert t[1..] == s + (['"'] + tail);
    TokenMark(w, '"', s + (['"'] + tail), comments);
    TokenAt(t, comments);
  }

  lemma MarginSpaces(depth: nat, base: nat)
    ensures AllSpaces(Margin(depth, base)) && AllSpaces(['\n']) && AllSpaces([' ']) && AllSpaces(['\n'] + Margin(depth, base))
  {
  }

  /** The end of a container: the end of the line, the margin and a bracket. */
  function CloseTo(depth: nat, base: nat, close: char, tail: text): text { ['\n'] + (Margin(depth, base) + ([close] + tail)) }

  lemma CloseToken(depth: nat, base: nat, close: char, tail: text, comments: bool)
    requires MarkChar(close)
    ensures GetToken(CloseTo(depth, base, close, tail), comments) == Lexed(Mark(close), [close] + tail)
    ensures ([close] + tail)[1..] == tail && Delimits(CloseTo(depth, base, close, tail))
  {
    hide GetToken;
    MarginSpaces(depth, base);
    TokenBehind(['\n'], Margin(depth, base) + ([close] + tail), comments);
    TokenMark(Margin(depth, base), close, tail, comments);
  }

  lemma CommaToken(s: text, comments: bool)
    ensures GetToken(CommaTo(false, s), comments) == Lexed(ValueSep, [','] + (['\n'] + s))
    ensures ([','] + (['\n'] + s))[1..] == ['\n'] + s && Delimits(CommaTo(false, s))
    ensures GetToken(['\n'] + s, comments) == GetToken(s, comments)
  {
    hide GetToken;
    assert AllSpaces(['\n']);
    TokenAt([','] + (['\n'] + s), comments);
    TokenBehind(['\n'], s, comments);
  }

  lemma {:induction false} NamedBack(n: Node, depth: nat, base: nat, tail: text, comments: bool)
    requires Writable(n) && Delimits(tail)
    ensures Reads(NamedTo(n, depth, base, tail), comments, TreeOf(n), tail)
    decreases n, 2
  {
    hide GetToken, ParseObject, ParseArray, StrBody, GetNum, NumberForm, ContainerTo;
    assert AllSpaces([' ']) && AllSpaces(['\n']);
    match n
    case Raw(num) =>
      NumberBack(num, tail);
      NumberFirst(num);
      TokenBehind([' '], num.val + tail, comments);
      TokenAt(num.val + tail, comments);
    case Quoted(s) => QuotedBack([' '], s, tail, comments);
    case Truth(b) =>
      var w := if b then "true" else "false";
      TokenBehind([' '], w + tail, comments);
      TokenWord(w, tail, comments);
    case Object(_) =>
      TokenBehind(['\n'], ContainerTo(n, depth, base, tail), comments);
      ContainerBack(n, depth, base, tail, comments);
    case Array(_) =>
      TokenBehind(['\n'], ContainerTo(n, depth, base, tail), comments);
      ContainerBack(n, depth, base, tail, comments);
  }

  /** An object, an array or a string at any depth is read as the tree it describes. */
  lemma {:induction false} ContainerBack(n: Node, depth: nat, base: nat, tail: text, comments: bool)
    requires Writable(n) && (n.Object? || n.Array? || n.Quoted?)
    ensures Reads(ContainerTo(n, depth, base, tail), comments, TreeOf(n), tail)
    ensures !GetToken(ContainerTo(n, depth, base, tail), comments).token.ArrayEnd?
    decreases n, 1
  {
    hide GetToken, ParseMembers, ParseElements, StrBody, ItemsTo, ValuesTo;
    MarginSpaces(depth, base);
    match n
    case Object(items) =>
      var inner := ItemsTo(items, depth + 1, base, true, CloseTo(depth, base, '}', tail));
      TokenMark(Margin(depth, base), '{', inner, comments);
      assert (['{'] + inner)[1..] == inner;
      ObjectBackW(items, depth, base, tail, comments);
    case Array(values) =>
      var inner := ValuesTo(values, depth + 1, base, true, CloseTo(depth, base, ']', tail));
      TokenMark(Margin(depth, base), '[', inner, comments);
      assert (['['] + inner)[1..] == inner;
      ArrayBackW(values, depth, base, tail, comments);
    case Quoted(s) => QuotedBack(Margin(depth, base), s, tail, comments);
  }

  lemma {:induction false} ObjectBackW(items: Items, depth: nat, base: nat, tail: text, comments: bool)
    requires WritableItems(items)
    ensures ParseObject(ItemsTo(items, depth + 1, base, true, CloseTo(depth, base, '}', tail)), comments)
         == POk(JObject(MembersOf(items, NoMember)), tail)
    decreases items, 1
  {
    hide GetToken, ParseMembers, NamedTo;
    var close := CloseTo(depth, base, '}', tail);
    CloseToken(depth, base, '}', tail, comments);
    if items.Item? {
      MarginSpaces(depth + 1, base);
      var body := NameTo(items.name, NamedTo(items.node, depth + 1, base, ItemsTo(items.next, depth + 1, base, false, close)));
      NameToken(items.name, NamedTo(items.node, depth + 1, base, ItemsTo(items.next, depth + 1, base, false, close)), comments);
      TokenBehind(['\n'], Margin(depth + 1, base) + body, comments);
      TokenBehind(Margin(depth + 1, base), body, comments);
      ItemsBack(items, depth, base, NoMember, tail, comments);
    }
  }

  /** A name is found, and the colon behind it. */
  lemma NameToken(name: text, v: text, comments: bool)
    ensures GetToken(NameTo(name, v), comments) == Lexed(StrToken, NameTo(name, v))
    ensures GetToken([' '] + ([':'] + v), comments) == Lexed(NameSep, [':'] + v) && ([':'] + v)[1..] == v
  {
    hide GetToken;
    assert AllSpaces([' ']);
    TokenAt(NameTo(name, v), comments);
    TokenMark([' '], ':', v, comments);
  }

  lemma {:induction false} ItemsBack(items: Items, depth: nat, base: nat, acc: Members, tail: text, comments: bool)
    requires items.Item? && WritableItems(items)
    ensures var close := CloseTo(depth, base, '}', tail);
      ParseMembers(NameTo(items.name, NamedTo(items.node, depth + 1, base, ItemsTo(items.next, depth + 1, base, false, close))),
                   acc, comments)
      == POk(JObject(MembersOf(items, acc)), tail)
    decreases items, 0
  {
    hide GetToken, StrBody, ParseMembers, NamedTo, Insert, Unescaped;
    var close := CloseTo(depth, base, '}', tail);
    var name, next := items.name, items.next;
    var a3 := ItemsTo(next, depth + 1, base, false, close);
    var v := NamedTo(items.node, depth + 1, base, a3);
    var t := NameTo(name, v);
    var all := Insert(acc, name, TreeOf(items.node));
    NameToken(name, v, comments);
    QuotedBack([], name, [' '] + ([':'] + v), comments);
    CloseToken(depth, base, '}', tail, comments);
    if next.Item? {
      var after := ItemsTo(next.next, depth + 1, base, false, close);
      var body := NameTo(next.name, NamedTo(next.node, depth + 1, base, after));
      var s := Margin(depth + 1, base) + body;
      MarginSpaces(depth + 1, base);
      CommaToken(s, comments);
      NamedBack(items.node, depth + 1, base, a3, comments);
      MemberStep(t, acc, comments, name, [' '] + ([':'] + v), [':'] + v, TreeOf(items.node), a3);
      TokenBehind(Margin(depth + 1, base), body, comments);
      SameToken(['\n'] + s, body, all, comments);
      ItemsBack(next, depth, base, all, tail, comments);
    } else {
      NamedBack(items.node, depth + 1, base, a3, comments);
      MemberStep(t, acc, comments, name, [' '] + ([':'] + v), [':'] + v, TreeOf(items.node), a3);
      assert MembersOf(next, all) == all;
    }
  }

  lemma {:induction false} ArrayBackW(values: Values, depth: nat, base: nat, tail: text, comments: bool)
    requires WritableValues(values)
    ensures ParseArray(ValuesTo(values, depth + 1, base, true, CloseTo(depth, base, ']', tail)), comments)
         == POk(JArray(ElementsOf(values)), tail)
    decreases values, 1
  {
    hide GetToken, ParseElements, ContainerTo;
    CloseToken(depth, base, ']', tail, comments);
    if values.Value? {
      var s := ContainerTo(values.node, depth + 1, base, ValuesTo(values.next, depth + 1, base, false, CloseTo(depth, base, ']', tail)));
      assert AllSpaces(['\n']);
      TokenBehind(['\n'], s, comments);
      ValuesBack(values, depth, base, NoElement, tail, comments);
    }
  }

  lemma {:induction false} ValuesBack(values: Values, depth: nat, base: nat, acc: Elements, tail: text, comments: bool)
    requires values.Value? && WritableValues(values)
    ensures var close := CloseTo(depth, base, ']', tail);
      var l := GetToken(ContainerTo(values.node, depth + 1, base, ValuesTo(values.next, depth + 1, base, false, close)), comments);
      && !l.token.ArrayEnd?
      && ParseElements(l.token, l.rest, acc, comments) == POk(JArray(Join(acc, ElementsOf(values))), tail)
    decreases values, 0
  {
    hide GetToken, ParseValue, ParseElements, ContainerTo, Append, Join;
    var close := CloseTo(depth, base, ']', tail);
    var a1 := ValuesTo(values.next, depth + 1, base, false, close);
    var j := TreeOf(values.node);
    ContainerBack(values.node, depth + 1, base, a1, comments);
    var l := GetToken(ContainerTo(values.node, depth + 1, base, a1), comments);
    ElementStep(l.token, l.rest, acc, comments, j, a1);
    AppendLast(acc, j, ElementsOf(values.next));
    CloseToken(depth, base, ']', tail, comments);
    if values.next.Value? {
      CommaToken(ContainerTo(values.next.node, depth + 1, base, ValuesTo(values.next.next, depth + 1, base, false, close)), comments);
      ValuesBack(values.next, depth, base, Append(acc, j), tail, comments);
    } else {
      JoinNone(Append(acc, j));
    }
  }

  /** The text of an object, written at the outermost level, is accepted as the tree it
      describes. */
  lemma WrittenBack(items: Items, base: nat, comments: bool)
    requires WritableItems(items)
    ensures ParseText(ContainerTo(Object(items), 0, base, []), comments) == Tree(JObject(MembersOf(items, NoMember)))
  {
    hide GetToken, ParseValue, WritableItems, ItemsTo;
    var n := Object(items);
    var s := ContainerTo(n, 0, base, []);
    assert Writable(n);
    ContainerBack(n, 0, base, [], comments);
    EndAgain(comments);
    ReadsNotEnd(s, comments, TreeOf(n), []);
    assert s != [] && s[0] != Octet(0xef);
  }

  // ---------------------------------------------------------------- the text without what follows

  lemma Assoc(a: text, b: text, c: text)
    ensures a + (b + c) == (a + b) + c
  {
  }

  lemma {:induction false} NamedAppend(n: Node, depth: nat, base: nat, a: text, tail: text)
    ensures NamedTo(n, depth, base, a + tail) == NamedTo(n, depth, base, a) + tail
    decreases n, 2
  {
    hide ContainerTo;
    match n
    case Raw(num) => Assoc(num.val, a, tail); Assoc([' '], num.val + a, tail);
    case Quoted(s) => QuoteAppend([' '], s, a, tail);
    case Truth(b) =>
      var w := if b then "true" else "false";
      Assoc(w, a, tail);
      Assoc([' '], w + a, tail);
    case _ =>
      ContainerAppend(n, depth, base, a, tail);
      Assoc(['\n'], ContainerTo(n, depth, base, a), tail);
  }

  lemma QuoteAppend(w: text, s: text, a: text, tail: text)
    ensures w + (['"'] + (s + (['"'] + (a + tail)))) == (w + (['"'] + (s + (['"'] + a)))) + tail
  {
    Assoc(['"'], a, tail);
    Assoc(s, ['"'] + a, tail);
    Assoc(['"'], s + (['"'] + a), tail);
    Assoc(w, ['"'] + (s + (['"'] + a)), tail);
  }

  lemma CloseAppend(depth: nat, base: nat, close: char, a: text, tail: text)
    ensures CloseTo(depth, base, close, a + tail) == CloseTo(depth, base, close, a) + tail
  {
    Assoc([close], a, tail);
    Assoc(Margin(depth, base), [close] + a, tail);
    Assoc(['\n'], Margin(depth, base) + ([close] + a), tail);
  }

  lemma {:induction false} ContainerAppend(n: Node, depth: nat, base: nat, a: text, tail: text)
    ensures ContainerTo(n, depth, base, a + tail) == ContainerTo(n, depth, base, a) + tail
    decreases n, 1
  {
    hide ItemsTo, ValuesTo;
    match n
    case Object(items) =>
      CloseAppend(depth, base, '}', a, tail);
      ItemsAppend(items, depth + 1, base, true, CloseTo(depth, base, '}', a), tail);
      var inner := ItemsTo(items, depth + 1, base, true, CloseTo(depth, base, '}', a));
      Assoc(['{'], inner, tail);
      Assoc(Margin(depth, base), ['{'] + inner, tail);
    case Array(values) =>
      CloseAppend(depth, base, ']', a, tail);
      ValuesAppend(values, depth + 1, base, true, CloseTo(depth, base, ']', a), tail);
      var inner := ValuesTo(values, depth + 1, base, true, CloseTo(depth, base, ']', a));
      Assoc(['['], inner, tail);
      Assoc(Margin(depth, base), ['['] + inner, tail);
    case Quoted(s) => QuoteAppend(Margin(depth, base), s, a, tail);
    case _ =>
  }

  lemma CommaAppend(first: bool, a: text, tail: text)
    ensures CommaTo(first, a + tail) == CommaTo(first, a) + tail
  {
    Assoc(['\n'], a, tail);
    Assoc([','], ['\n'] + a, tail);
  }

  lemma NameAppend(w: text, name: text, a: text, tail: text)
    ensures w + NameTo(name, a + tail) == (w + NameTo(name, a)) + tail
  {
    Assoc([':'], a, tail);
    Assoc([' '], [':'] + a, tail);
    QuoteAppend(w, name, [' '] + ([':'] + a), tail);
  }

  lemma {:induction false} ItemsAppend(items: Items, depth: nat, base: nat, first: bool, a: text, tail: text)
    ensures ItemsTo(items, depth, base, first, a + tail) == ItemsTo(items, depth, base, first, a) + tail
    decreases items, 0
  {
    hide NamedTo, CommaTo, NameTo;
    match items
    case NoItem =>
    case Item(name, node, next) =>
      var more := ItemsTo(next, depth, base, false, a);
      ItemsAppend(next, depth, base, false, a, tail);
      NamedAppend(node, depth, base, more, tail);
      NameAppend(Margin(depth, base), name, NamedTo(node, depth, base, more), tail);
      CommaAppend(first, Margin(depth, base) + NameTo(name, NamedTo(node, depth, base, more)), tail);
  }

  lemma {:induction false} ValuesAppend(values: Values, depth: nat, base: nat, first: bool, a: text, tail: text)
    ensures ValuesTo(values, depth, base, first, a + tail) == ValuesTo(values, depth, base, first, a) + tail
    decreases values, 0
  {
    hide ContainerTo, CommaTo;
    match values
    case NoValue =>
    case Value(node, next) =>
      var more := ValuesTo(next, depth, base, false, a);
      ValuesAppend(next, depth, base, false, a, tail);
      ContainerAppend(node, depth, base, more, tail);
      CommaAppend(first, ContainerTo(node, depth, base, more), tail);
  }

  // ---------------------------------------------------------------- the writer

  class JsonWriter {
    const base: nat
    var result: text
    var firstVals: seq<bool>    // the flags of the containers around, the innermost last
    var first: bool

    constructor (base: nat)
      ensures this.base == base && result == "" && firstVals == [] && first
    {
      this.base, result, firstVals, first := base, "", [], true;
    }

    /** The text has grown by `s`, in the same container. */
    twostate predicate Wrote(s: text)
      reads this
    {
      result == old(result) + s && firstVals == old(firstVals)
    }

    method Close()
      modifies this
      ensures Wrote(CommaTo(old(first), "")) && !first
    {
      if !first { result := result + [',']; }
      result := result + ['\n'];
      first := false;
      assert CommaTo(old(first), "") == if old(first) then ['\n'] else [','] + ['\n'];
    }

    method Indent()
      modifies this`result
      ensures Wrote(Margin(|firstVals|, base))
    {
      result := result + Spaces(|firstVals| * 2 + base);
    }

    method StartName(name: text, end: text)
      modifies this
      ensures Wrote(CommaTo(old(first), Margin(|firstVals|, base) + NameTo(name, end))) && !first
    {
      Close();
      Indent();
      result := result + ['"'];
      result := result + name;
      result := result + "\" :";
      result := result + end;
      StartParts(old(result), old(first), Margin(|firstVals|, base), name, end);
    }

    method StartObject()
      modifies this
      ensures result == old(result) + (Margin(|old(firstVals)|, base) + ['{'])
      ensures firstVals == old(firstVals) + [old(first)] && first
    {
      Indent();
      result := result + "{";
      firstVals := firstVals + [first];
      first := true;
    }

    /** The flag of the container around comes back. */
    method CloseObject()
      requires firstVals != []
      modifies this
      ensures result == old(result) + CloseTo(|firstVals|, base, '}', "")
      ensures firstVals == old(firstVals)[..|old(firstVals)| - 1] && first == old(firstVals)[|old(firstVals)| - 1]
    {
      result := result + ['\n'];
      first := firstVals[|firstVals| - 1];
      firstVals := firstVals[..|firstVals| - 1];
      Indent();
      result := result + "}";
      CloseParts(old(result), Margin(|firstVals|, base), '}');
    }

    method StartArray()
      modifies this
      ensures result == old(result) + (Margin(|old(firstVals)|, base) + ['['])
      ensures firstVals == old(firstVals) + [old(first)] && first
    {
      Indent();
      result := result + "[";
      firstVals := firstVals + [first];
      first := true;
    }

    method CloseArray()
      requires firstVals != []
      modifies this
      ensures result == old(result) + CloseTo(|firstVals|, base, ']', "")
      ensures firstVals == old(firstVals)[..|old(firstVals)| - 1] && first == old(firstVals)[|old(firstVals)| - 1]
    {
      result := result + ['\n'];
      first := firstVals[|firstVals| - 1];
      firstVals := firstVals[..|firstVals| - 1];
      Indent();
      result := result + "]";
      CloseParts(old(result), Margin(|firstVals|, base), ']');
    }

    /** A name, and what comes behind it in the same line. */
    method NameThen(name: text, end: text, rest: text)
      modifies this
      ensures Wrote(CommaTo(old(first), Margin(|firstVals|, base) + NameTo(name, end + rest))) && !first
    {
      StartName(name, end);
      result := result + rest;
      NameAppend(Margin(|firstVals|, base), name, end, rest);
      CommaAppend(old(first), Margin(|firstVals|, base) + NameTo(name, end), rest);
      Assoc(old(result), CommaTo(old(first), Margin(|firstVals|, base) + NameTo(name, end)), rest);
    }

    method ProcValue(name: text, n: Number)
      modifies this
      ensures Wrote(ItemsTo(Item(name, Raw(n), NoItem), |firstVals|, base, old(first), "")) && !first
    {
      NameThen(name, " ", n.val);
      assert n.val + "" == n.val;
      OneItem(name, Raw(n), |firstVals|, base, old(first));
    }

    method ProcString(name: text, val: text)
      modifies this
      ensures Wrote(ItemsTo(Item(name, Quoted(val), NoItem), |firstVals|, base, old(first), "")) && !first
    {
      NameThen(name, " \"", val + "\"");
      assert " \"" + (val + "\"") == [' '] + (['"'] + (val + (['"'] + "")));
      OneItem(name, Quoted(val), |firstVals|, base, old(first));
    }

    method ProcBool(name: text, val: bool)
      modifies this
      ensures Wrote(ItemsTo(Item(name, Truth(val), NoItem), |firstVals|, base, old(first), "")) && !first
    {
      var w := if val then "true" else "false";
      NameThen(name, " ", w);
      assert w + "" == w;
      OneItem(name, Truth(val), |firstVals|, base, old(first));
    }

    /** The calls of one named value. Afterwards the writer is in the same container, behind
        its first value. */
    method WriteNamed(name: text, node: Node)
      modifies this
      ensures Wrote(ItemsTo(Item(name, node, NoItem), |firstVals|, base, old(first), "")) && !first
      decreases node, 1
    {
      hide ItemsTo, ContainerTo;
      match node
      case Raw(n) => ProcValue(name, n);
      case Quoted(s) => ProcString(name, s);
      case Truth(b) => ProcBool(name, b);
      case _ =>
        StartName(name, "\n");
        ghost var r := result;
        WriteContainer(node);
        ghost var c := ContainerTo(node, |firstVals|, base, "");
        NameAppend(Margin(|firstVals|, base), name, "\n", c);
        CommaAppend(old(first), Margin(|firstVals|, base) + NameTo(name, "\n"), c);
        Assoc(old(result), CommaTo(old(first), Margin(|firstVals|, base) + NameTo(name, "\n")), c);
        OneItem(name, node, |firstVals|, base, old(first));
    }

    /** The calls of an object or an array, or of a string in an array. */
    method WriteContainer(node: Node)
      modifies this
      ensures Wrote(ContainerTo(node, |firstVals|, base, "")) && first == old(first)
      decreases node, 0
    {
      hide ItemsTo, ValuesTo;
      var depth := |firstVals|;
      match node
      case Object(items) =>
        StartObject();
        ghost var r := result;
        WriteItems(items);
        CloseObject();
        ghost var close := CloseTo(depth, base, '}', "");
        ItemsAppend(items, depth + 1, base, true, "", close);
        BracketParts(old(result), Margin(depth, base), '{', ItemsTo(items, depth + 1, base, true, ""), close);
        assert "" + close == close;
      case Array(values) =>
        StartArray();
        WriteValues(values);
        CloseArray();
        ghost var close := CloseTo(depth, base, ']', "");
        ValuesAppend(values, depth + 1, base, true, "", close);
        BracketParts(old(result), Margin(depth, base), '[', ValuesTo(values, depth + 1, base, true, ""), close);
        assert "" + close == close;
      case Quoted(s) =>
        Indent();
        result := result + ("\"" + s + "\"");
        assert "\"" + s + "\"" == ['"'] + (s + (['"'] + ""));
      case _ =>
        assert result + "" == result;
    }

    method WriteItems(items: Items)
      modifies this
      ensures Wrote(ItemsTo(items, |firstVals|, base, old(first), "")) && first == (old(first) && items.NoItem?)
      decreases items, 0
    {
      if items.NoItem? {
        assert result + "" == result;
        return;
      }
      hide NamedTo;
      WriteNamed(items.name, items.node);
      ghost var r := result;
      WriteItems(items.next);
      ghost var more := ItemsTo(items.next, |firstVals|, base, false, "");
      NextItem(items, |firstVals|, base, old(first));
      Assoc(old(result), ItemsTo(Item(items.name, items.node, NoItem), |firstVals|, base, old(first), ""), more);
    }

    method WriteValues(values: Values)
      modifies this
      ensures Wrote(ValuesTo(values, |firstVals|, base, old(first), "")) && first == (old(first) && values.NoValue?)
      decreases values, 0
    {
      if values.NoValue? {
        assert result + "" == result;
        return;
      }
      hide ContainerTo;
      Close();
      WriteContainer(values.node);
      WriteValues(values.next);
      ghost var one := ContainerTo(values.node, |firstVals|, base, "");
      ghost var more := ValuesTo(values.next, |firstVals|, base, false, "");
      NextValue(values, |firstVals|, base, old(first));
      ValueParts(old(result), CommaTo(old(first), ""), one, more);
    }
  }

  lemma StartParts(r: text, first: bool, m: text, name: text, end: text)
    ensures r + CommaTo(first, "") + m + ['"'] + name + "\" :" + end == r + CommaTo(first, m + NameTo(name, end))
  {
    var q := ['"'] + ([' '] + ([':'] + end));
    assert "\" :" + end == q;
    CommaAppend(first, "", m + NameTo(name, end));
    assert "" + (m + NameTo(name, end)) == m + NameTo(name, end);
    assert r + CommaTo(first, "") + m + ['"'] + name + ("\" :" + end) == r + (CommaTo(first, "") + (m + (['"'] + (name + q))));
    assert r + CommaTo(first, "") + m + ['"'] + name + "\" :" + end == r + CommaTo(first, "") + m + ['"'] + name + ("\" :" + end);
  }

  lemma CloseParts(r: text, m: text, close: char)
    ensures r + ['\n'] + m + [close] == r + (['\n'] + (m + ([close] + "")))
  {
    assert [close] + "" == [close];
  }

  lemma OneItem(name: text, node: Node, depth: nat, base: nat, first: bool)
    ensures ItemsTo(Item(name, node, NoItem), depth, base, first, "")
         == CommaTo(first, Margin(depth, base) + NameTo(name, NamedTo(node, depth, base, "")))
  {
    assert ItemsTo(NoItem, depth, base, false, "") == "";
  }

  lemma NextItem(items: Items, depth: nat, base: nat, first: bool)
    requires items.Item?
    ensures ItemsTo(items, depth, base, first, "")
         == ItemsTo(Item(items.name, items.node, NoItem), depth, base, first, "") + ItemsTo(items.next, depth, base, false, "")
  {
    var more := ItemsTo(items.next, depth, base, false, "");
    ItemsAppend(Item(items.name, items.node, NoItem), depth, base, first, "", more);
    assert "" + more == more;
    assert ItemsTo(NoItem, depth, base, false, more) == more;
  }

  lemma NextValue(values: Values, depth: nat, base: nat, first: bool)
    requires values.Value?
    ensures ValuesTo(values, depth, base, first, "")
         == CommaTo(first, "") + (ContainerTo(values.node, depth, base, "") + ValuesTo(values.next, depth, base, false, ""))
  {
    hide ContainerTo, CommaTo;
    var one, more := ContainerTo(values.node, depth, base, ""), ValuesTo(values.next, depth, base, false, "");
    ContainerAppend(values.node, depth, base, "", more);
    assert "" + more == more;
    CommaAppend(first, "", one + more);
    assert "" + (one + more) == one + more;
  }

  lemma ValueParts(r: text, comma: text, one: text, more: text)
    ensures r + comma + one + more == r + (comma + (one + more))
  {
  }

  lemma BracketParts(r: text, m: text, open: char, inner: text, close: text)
    ensures r + (m + [open]) + inner + close == r + (m + ([open] + (inner + close)))
  {
  }
}
