/**
 The grammar of the JSON texts that are accepted: a text is a sequence of lexemes, which are
 spelled by syntax trees. A text is parsed to a tree if and only if its lexemes spell a value
 with that meaning, and white space and comments between lexemes do not change them.
 */
module JsonGrammar {
  import opened Octets
  import opened JsonText
  import opened JsonNumber
  import opened JsonTree

  // ---------------------------------------------------------------- lexemes

  /** A bracket or separator, a value without parts, or something that cannot be read. */
  datatype Lexeme = Sign(token: Token) | Atom(json: Json) | Broken

  predicate IsWord(t: Token) { t.TrueToken? || t.FalseToken? || t.NullToken? }

  function Rank(t: Token): nat { if IsWord(t) then 2 else if t.Invalid? then 1 else 0 }

  function WordOf(t: Token): Json
    requires IsWord(t)
  {
    if t.TrueToken? then JBool(true) else if t.FalseToken? then JBool(false) else JNull
  }

  /** A keyword has at least one letter, which is already behind. */
  lemma {:induction false} WordTaken(s: text, comments: bool)
    ensures IsWord(GetToken(s, comments).token) ==> |GetToken(s, comments).rest| < |s|
    decreases |s|
  {
    var t := SkipSpaces(s);
    if !Eof(t) && t[0] == '/' && comments && SkipComment(t).ok { WordTaken(SkipComment(t).rest, comments); }
  }

  /** The lexemes from a token on. Reading goes on behind a broken lexeme, unless it is still
      the next one. */
  function From(l: Lexed, comments: bool): (r: seq<Lexeme>)
    requires AtMark(l)
    decreases |l.rest|, Rank(l.token)
  {
    if l.token.EndToken? then []
    else if l.token.StrToken? then
      var r := StrBody(l.rest[1..], None);
      if r.PFail? then [Broken] else [Atom(JString(r.val))] + From(GetToken(r.rest, comments), comments)
    else if l.token.NumToken? then
      var r := GetNum(l.rest);
      if r.PFail? then [Broken] else [Atom(JNumber(r.val))] + From(GetToken(r.rest, comments), comments)
    else if IsMark(l.token) then [Sign(l.token)] + From(GetToken(l.rest[1..], comments), comments)
    else
      WordTaken(l.rest, comments);
      var next := GetToken(l.rest, comments);
      if IsWord(l.token) then [Atom(WordOf(l.token))] + From(next, comments)
      else if next.token.Invalid? && |next.rest| == |l.rest| then [Broken]
      else [Broken] + From(next, comments)
  }

  /** The lexemes of a text. */
  function Lex(s: text, comments: bool): seq<Lexeme> { From(GetToken(s, comments), comments) }

  lemma Lexes(s: text, comments: bool)
    ensures Lex(s, comments) == [] <==> GetToken(s, comments).token.EndToken?
  {
    hide GetToken, StrBody, GetNum;
  }

  // ---------------------------------------------------------------- syntax trees

  /** A value of a text; `junk` is what is skipped in front of the first name of an object. */
  datatype Value = Leaf(json: Json) | Object(junk: seq<Lexeme>, pairs: Pairs) | Array(items: Items)

  datatype Pairs = NoPair | Pair(name: text, value: Value, next: Pairs)

  datatype Items = NoItem | Item(value: Value, next: Items)

  /** A keyword or a broken lexeme. */
  predicate Junk(x: Lexeme) { x.Broken? || (x.Atom? && (x.json.JBool? || x.json.JNull?)) }

  /** Only an object with a name can have junk, and only one lexeme of it. Without junk the
      values are those of RFC 8259. */
  predicate Good(v: Value) {
    match v
    case Leaf(_) => true
    case Object(junk, ps) => (junk == [] || (ps.Pair? && |junk| == 1 && Junk(junk[0]))) && GoodPairs(ps)
    case Array(es) => GoodItems(es)
  }

  predicate GoodPairs(ps: Pairs) { ps.NoPair? || (Good(ps.value) && GoodPairs(ps.next)) }

  predicate GoodItems(es: Items) { es.NoItem? || (Good(es.value) && GoodItems(es.next)) }

  /** The lexemes of a value, with those that follow. */
  function Spell(v: Value, more: seq<Lexeme>): seq<Lexeme> {
    match v
    case Leaf(j) => [Atom(j)] + more
    case Object(junk, ps) => [Sign(ObjectStart)] + (junk + SpellPairs(ps, more))
    case Array(es) => [Sign(ArrayStart)] + SpellItems(es, more)
  }

  function SpellPairs(ps: Pairs, more: seq<Lexeme>): seq<Lexeme> {
    match ps
    case NoPair => [Sign(ObjectEnd)] + more
    case Pair(name, v, next) =>
      [Atom(JString(name))] + ([Sign(NameSep)]
      + Spell(v, if next.NoPair? then SpellPairs(next, more) else [Sign(ValueSep)] + SpellPairs(next, more)))
  }

  function SpellItems(es: Items, more: seq<Lexeme>): seq<Lexeme> {
    match es
    case NoItem => [Sign(ArrayEnd)] + more
    case Item(v, next) =>
      Spell(v, if next.NoItem? then SpellItems(next, more) else [Sign(ValueSep)] + SpellItems(next, more))
  }

  /** The tree a value stands for. */
  function Meaning(v: Value): Json {
    match v
    case Leaf(j) => j
    case Object(_, ps) => JObject(Collect(NoMember, ps))
    case Array(es) => JArray(Each(es))
  }

  /** The members of an object: sorted by their names, see `Collected`. */
  function Collect(ms: Members, ps: Pairs): Members
    decreases ps
  {
    match ps
    case NoPair => ms
    case Pair(name, v, next) => Collect(Insert(ms, name, Meaning(v)), next)
  }

  function Each(es: Items): Elements {
    match es
    case NoItem => NoElement
    case Item(v, next) => Element(Meaning(v), Each(next))
  }

  // The members are those of the text

  /** The values with a name, in their order. */
  function Under(ms: Members, name: text): seq<Json> {
    match ms
    case NoMember => []
    case Member(k, v, next) => (if k == name then [v] else []) + Under(next, name)
  }

  function PairsUnder(ps: Pairs, name: text): seq<Json> {
    match ps
    case NoPair => []
    case Pair(k, v, next) => (if k == name then [Meaning(v)] else []) + PairsUnder(next, name)
  }

  /** All keys of sorted members from one that is greater on are greater. */
  lemma {:induction false} NoneUnder(ms: Members, name: text)
    requires Sorted(ms) && ms.Member? && Less(name, ms.key)
    ensures Under(ms, name) == []
    decreases ms
  {
    LessAsym(name, ms.key);
    if ms.next.Member? {
      var k := ms.next.key;
      if !Less(name, k) {
        NotLessTrans(ms.key, k, name);
        assert false;
      }
      NoneUnder(ms.next, name);
    }
  }

  lemma {:induction false} InsertUnder(ms: Members, key: text, value: Json, name: text)
    requires Sorted(ms)
    ensures Under(Insert(ms, key, value), name) == Under(ms, name) + if key == name then [value] else []
    decreases ms
  {
    match ms
    case NoMember => assert Under(Member(key, value, NoMember), name) == (if key == name then [value] else []) + [];
    case Member(k, v, next) =>
      if Less(key, k) {
        if key == name { NoneUnder(ms, name); }
      } else {
        InsertUnder(next, key, value, name);
        assert Under(Member(k, v, Insert(next, key, value)), name)
            == (if k == name then [v] else []) + Under(Insert(next, key, value), name);
      }
  }

  lemma {:induction false} InsertSorted(ms: Members, key: text, value: Json)
    requires Sorted(ms)
    ensures Sorted(Insert(ms, key, value))
    decreases ms
  {
    match ms
    case NoMember => assert Sorted(Member(key, value, NoMember));
    case Member(k, v, next) => if Less(key, k) { LessAsym(key, k); } else { InsertSorted(next, key, value); }
  }

  /** The members of an object are sorted, and for every name they hold exactly the values the
      text has under that name, in the order of the text. */
  lemma {:induction false} Collected(ms: Members, ps: Pairs, name: text)
    requires Sorted(ms)
    ensures Sorted(Collect(ms, ps)) && Under(Collect(ms, ps), name) == Under(ms, name) + PairsUnder(ps, name)
    decreases ps
  {
    hide Under, Insert, Meaning, Sorted;
    match ps
    case NoPair => assert Under(ms, name) + [] == Under(ms, name);
    case Pair(k, v, next) =>
      var value := Meaning(v);
      var own := if k == name then [value] else [];
      InsertSorted(ms, k, value);
      InsertUnder(ms, k, value, name);
      Collected(Insert(ms, k, value), next, name);
      assert Under(ms, name) + own + PairsUnder(next, name) == Under(ms, name) + (own + PairsUnder(next, name));
  }

  // ---------------------------------------------------------------- what is spelled is parsed

  lemma Cons(x: Lexeme, a: seq<Lexeme>, y: Lexeme, b: seq<Lexeme>)
    requires [x] + a == [y] + b
    ensures x == y && a == b
  {
    assert ([x] + a)[0] == x && ([y] + b)[0] == y;
    assert ([x] + a)[1..] == a && ([y] + b)[1..] == b;
  }

  /** The token in front of a sign, and the lexemes behind it. */
  lemma SignFrom(l: Lexed, comments: bool, t: Token, more: seq<Lexeme>)
    requires AtMark(l) && From(l, comments) == [Sign(t)] + more
    ensures l.token == t && IsMark(t) && l.rest != [] && Lex(l.rest[1..], comments) == more
    ensures !t.StrToken? && !t.NumToken?
  {
    hide GetToken, StrBody, GetNum;
    assert From(l, comments)[0] == Sign(t);
    assert IsMark(l.token);
    Cons(Sign(l.token), Lex(l.rest[1..], comments), Sign(t), more);
  }

  lemma AtomFrom(l: Lexed, comments: bool, j: Json, more: seq<Lexeme>)
    requires AtMark(l) && From(l, comments) == [Atom(j)] + more
    ensures var r := ParseValue(l.token, l.rest, comments); r.POk? && r.val == j && Lex(r.rest, comments) == more
    ensures l.token.StrToken? <==> j.JString?
  {
    hide GetToken, StrBody, GetNum;
    assert From(l, comments)[0] == Atom(j);
    var r := ParseValue(l.token, l.rest, comments);
    assert r.POk? && From(l, comments) == [Atom(r.val)] + Lex(r.rest, comments);
    Cons(Atom(r.val), Lex(r.rest, comments), Atom(j), more);
  }

  /** A keyword or a broken lexeme does not change what comes behind it. */
  lemma JunkFrom(l: Lexed, comments: bool, x: Lexeme, more: seq<Lexeme>)
    requires AtMark(l) && From(l, comments) == [x] + more && Junk(x) && more != []
    ensures Lex(l.rest, comments) == more && !l.token.ObjectEnd?
  {
    hide GetToken, StrBody, GetNum;
    assert From(l, comments)[0] == x;
    assert |From(l, comments)| > 1;
    Cons(x, Lex(l.rest, comments), x, more);
  }

  lemma {:induction false} ValueSpelled(v: Value, l: Lexed, more: seq<Lexeme>, comments: bool)
    requires AtMark(l) && Good(v) && From(l, comments) == Spell(v, more)
    ensures var r := ParseValue(l.token, l.rest, comments);
      r.POk? && r.val == Meaning(v) && Lex(r.rest, comments) == more
    ensures !l.token.ArrayEnd?
    decreases v, 1
  {
    hide GetToken, StrBody, GetNum, ParseMembers, ParseElements, From, SpellPairs, SpellItems;
    match v
    case Leaf(j) => AtomFrom(l, comments, j, more);
    case Object(junk, ps) =>
      SignFrom(l, comments, ObjectStart, junk + SpellPairs(ps, more));
      ObjectSpelled(junk, ps, l.rest[1..], more, comments);
    case Array(es) =>
      SignFrom(l, comments, ArrayStart, SpellItems(es, more));
      ArraySpelled(es, l.rest[1..], more, comments);
  }

  lemma {:induction false} ObjectSpelled(junk: seq<Lexeme>, ps: Pairs, s: text, more: seq<Lexeme>, comments: bool)
    requires junk == [] || (ps.Pair? && |junk| == 1 && Junk(junk[0]))
    requires GoodPairs(ps) && Lex(s, comments) == junk + SpellPairs(ps, more)
    ensures var r := ParseObject(s, comments);
      r.POk? && r.val == JObject(Collect(NoMember, ps)) && Lex(r.rest, comments) == more
    decreases ps, 1
  {
    hide GetToken, ParseMembers, From;
    var l := GetToken(s, comments);
    MarkStays(s, comments);
    if ps.NoPair? {
      assert junk + SpellPairs(ps, more) == [Sign(ObjectEnd)] + more;
      SignFrom(l, comments, ObjectEnd, more);
    } else {
      PairsFirst(ps, more);
      if junk == [] {
        assert junk + SpellPairs(ps, more) == SpellPairs(ps, more);
        AtomFrom(l, comments, JString(ps.name), SpellPairs(ps, more)[1..]);
        assert Lex(l.rest, comments) == SpellPairs(ps, more);
      } else {
        assert junk == [junk[0]];
        JunkFrom(l, comments, junk[0], SpellPairs(ps, more));
      }
      PairsSpelled(ps, l.rest, NoMember, more, comments);
    }
  }

  lemma PairsFirst(ps: Pairs, more: seq<Lexeme>)
    requires ps.Pair?
    ensures SpellPairs(ps, more) != [] && SpellPairs(ps, more) == [Atom(JString(ps.name))] + SpellPairs(ps, more)[1..]
  {
    hide Spell;
  }

  /** A name and its colon. */
  lemma KeySpelled(s: text, name: text, more: seq<Lexeme>, comments: bool)
    requires Lex(s, comments) == [Atom(JString(name))] + ([Sign(NameSep)] + more)
    ensures var r := ParseKey(s, comments); r.POk? && r.val == name && Lex(r.rest, comments) == more
  {
    hide GetToken, StrBody, GetNum, From;
    var l := GetToken(s, comments);
    AtomFrom(l, comments, JString(name), [Sign(NameSep)] + more);
    var key := StrBody(l.rest[1..], None);
    SignFrom(GetToken(key.rest, comments), comments, NameSep, more);
  }

  lemma {:induction false} PairsSpelled(ps: Pairs, s: text, acc: Members, more: seq<Lexeme>, comments: bool)
    requires ps.Pair? && GoodPairs(ps) && Lex(s, comments) == SpellPairs(ps, more)
    ensures var r := ParseMembers(s, acc, comments);
      r.POk? && r.val == JObject(Collect(acc, ps)) && Lex(r.rest, comments) == more
    decreases ps, 0
  {
    hide GetToken, ParseKey, ParseValue, Spell, From, Insert, Meaning;
    var next, rest := ps.next, SpellPairs(ps.next, more);
    var behind := if next.NoPair? then rest else [Sign(ValueSep)] + rest;
    KeySpelled(s, ps.name, Spell(ps.value, behind), comments);
    var key := ParseKey(s, comments);
    var first := GetToken(key.rest, comments);
    ValueSpelled(ps.value, first, behind, comments);
    var value := ParseValue(first.token, first.rest, comments);
    var after := GetToken(value.rest, comments);
    var all := Insert(acc, ps.name, Meaning(ps.value));
    if next.NoPair? {
      SignFrom(after, comments, ObjectEnd, more);
      assert Collect(all, next) == all;
    } else {
      SignFrom(after, comments, ValueSep, rest);
      PairsSpelled(next, after.rest[1..], all, more, comments);
    }
  }

  lemma {:induction false} ArraySpelled(es: Items, s: text, more: seq<Lexeme>, comments: bool)
    requires GoodItems(es) && Lex(s, comments) == SpellItems(es, more)
    ensures var r := ParseArray(s, comments);
      r.POk? && r.val == JArray(Each(es)) && Lex(r.rest, comments) == more
    decreases es, 1
  {
    hide GetToken, ParseElements, From, Spell;
    var l := GetToken(s, comments);
    if es.NoItem? {
      SignFrom(l, comments, ArrayEnd, more);
    } else {
      ItemsSpelled(es, l, NoElement, more, comments);
      assert Join(NoElement, Each(es)) == Each(es);
    }
  }

  lemma {:induction false} ItemsSpelled(es: Items, l: Lexed, acc: Elements, more: seq<Lexeme>, comments: bool)
    requires AtMark(l) && es.Item? && GoodItems(es) && From(l, comments) == SpellItems(es, more)
    ensures var r := ParseElements(l.token, l.rest, acc, comments);
      r.POk? && r.val == JArray(Join(acc, Each(es))) && Lex(r.rest, comments) == more
    ensures !l.token.ArrayEnd?
    decreases es, 0
  {
    hide GetToken, ParseValue, Spell, From, Append, Join, Meaning;
    var next, rest := es.next, SpellItems(es.next, more);
    var behind := if next.NoItem? then rest else [Sign(ValueSep)] + rest;
    ValueSpelled(es.value, l, behind, comments);
    var value := ParseValue(l.token, l.rest, comments);
    var after := GetToken(value.rest, comments);
    var all := Append(acc, Meaning(es.value));
    AppendLast(acc, Meaning(es.value), Each(next));
    if next.NoItem? {
      SignFrom(after, comments, ArrayEnd, more);
      JoinNone(all);
      assert Each(next) == NoElement;
    } else {
      SignFrom(after, comments, ValueSep, rest);
      ItemsSpelled(next, GetToken(after.rest[1..], comments), all, more, comments);
    }
  }

  // ---------------------------------------------------------------- what is parsed is spelled

  lemma {:induction false} ValueParsed(l: Lexed, comments: bool) returns (v: Value)
    requires AtMark(l) && ParseValue(l.token, l.rest, comments).POk?
    ensures var r := ParseValue(l.token, l.rest, comments);
      Good(v) && Meaning(v) == r.val && From(l, comments) == Spell(v, Lex(r.rest, comments))
    decreases |l.rest|, 0
  {
    hide GetToken, StrBody, GetNum, ParseMembers, ParseElements, SpellPairs, SpellItems;
    var r := ParseValue(l.token, l.rest, comments);
    var more := Lex(r.rest, comments);
    if l.token.ObjectStart? {
      var junk, ps := ObjectParsed(l.rest[1..], comments);
      v := Object(junk, ps);
      assert From(l, comments) == [Sign(ObjectStart)] + Lex(l.rest[1..], comments);
    } else if l.token.ArrayStart? {
      var es := ArrayParsed(l.rest[1..], comments);
      v := Array(es);
      assert From(l, comments) == [Sign(ArrayStart)] + Lex(l.rest[1..], comments);
    } else {
      v := Leaf(r.val);
      assert From(l, comments) == [Atom(r.val)] + more;
    }
  }

  lemma {:induction false} ObjectParsed(s: text, comments: bool) returns (junk: seq<Lexeme>, ps: Pairs)
    requires ParseObject(s, comments).POk?
    ensures junk == [] || (ps.Pair? && |junk| == 1 && Junk(junk[0]))
    ensures var r := ParseObject(s, comments);
      && GoodPairs(ps) && JObject(Collect(NoMember, ps)) == r.val
      && Lex(s, comments) == junk + SpellPairs(ps, Lex(r.rest, comments))
    decreases |s|, 2
  {
    hide GetToken, StrBody, GetNum, ParseMembers, Spell;
    var l := GetToken(s, comments);
    var more := Lex(ParseObject(s, comments).rest, comments);
    MarkStays(s, comments);
    if l.token.ObjectEnd? {
      junk, ps := [], NoPair;
      assert Lex(s, comments) == [Sign(ObjectEnd)] + more;
      assert [] + SpellPairs(NoPair, more) == SpellPairs(NoPair, more);
    } else {
      ps := PairsParsed(l.rest, NoMember, comments);
      var named := SpellPairs(ps, more);
      NameFirst(l.rest, comments);
      if l.token.StrToken? {
        StrIsMark(l.token);
        junk := [];
        assert [] + named == named;
      } else {
        junk := JunkTaken(s, comments);
      }
    }
  }

  lemma NameFirst(s: text, comments: bool)
    requires ParseMembers(s, NoMember, comments).POk?
    ensures GetToken(s, comments).token.StrToken?
  {
    hide GetToken, StrBody, ParseValue, Insert;
  }

  /** The lexeme in front of a name that is skipped. */
  lemma JunkTaken(s: text, comments: bool) returns (junk: seq<Lexeme>)
    requires var l := GetToken(s, comments);
      !l.token.ObjectEnd? && !l.token.StrToken? && GetToken(l.rest, comments).token.StrToken?
    ensures |junk| == 1 && Junk(junk[0]) && Lex(s, comments) == junk + Lex(GetToken(s, comments).rest, comments)
  {
    hide GetToken, StrBody, GetNum;
    var l := GetToken(s, comments);
    MarkStays(s, comments);
    EndStays(s, comments);
    if l.token.Invalid? { junk := [Broken]; } else { junk := [Atom(WordOf(l.token))]; }
  }

  lemma {:induction false} KeywordNotEnd(s: text, key: text)
    ensures !Keyword(s, key).token.EndToken?
    decreases |s|
  {
    if !Delimits(s) && 'a' <= s[0] <= 'z' { KeywordNotEnd(s[1..], key + [s[0]]); }
  }

  lemma {:induction false} EndStays(s: text, comments: bool)
    ensures var l := GetToken(s, comments); l.token.EndToken? ==> GetToken(l.rest, comments) == l
    decreases |s|
  {
    var t := SkipSpaces(s);
    if Eof(t) {
      assert SkipSpaces(t) == t;
    } else if t[0] == '/' && comments && SkipComment(t).ok {
      EndStays(SkipComment(t).rest, comments);
    } else if 'a' <= t[0] <= 'z' {
      KeywordNotEnd(t, "");
    }
  }

  lemma KeyParsed(s: text, comments: bool)
    requires ParseKey(s, comments).POk?
    ensures var r := ParseKey(s, comments);
      Lex(s, comments) == [Atom(JString(r.val))] + ([Sign(NameSep)] + Lex(r.rest, comments))
  {
    hide GetToken, StrBody, GetNum;
    var l := GetToken(s, comments);
    var key := StrBody(l.rest[1..], None);
    assert Lex(s, comments) == [Atom(JString(key.val))] + Lex(key.rest, comments);
    assert Lex(key.rest, comments) == [Sign(NameSep)] + Lex(GetToken(key.rest, comments).rest[1..], comments);
  }

  lemma SignLexed(s: text, comments: bool)
    requires var t := GetToken(s, comments).token; IsMark(t) && !t.StrToken? && !t.NumToken?
    ensures var l := GetToken(s, comments); Lex(s, comments) == [Sign(l.token)] + Lex(l.rest[1..], comments)
  {
    hide GetToken, StrBody, GetNum;
  }

  lemma {:induction false} PairsParsed(s: text, acc: Members, comments: bool) returns (ps: Pairs)
    requires ParseMembers(s, acc, comments).POk?
    ensures var r := ParseMembers(s, acc, comments);
      && ps.Pair? && GoodPairs(ps) && JObject(Collect(acc, ps)) == r.val
      && Lex(s, comments) == SpellPairs(ps, Lex(r.rest, comments))
    decreases |s|, 1
  {
    hide GetToken, ParseKey, ParseValue, Spell, From, Insert, Meaning;
    var key := ParseKey(s, comments);
    KeyParsed(s, comments);
    var first := GetToken(key.rest, comments);
    var v := ValueParsed(first, comments);
    var value := ParseValue(first.token, first.rest, comments);
    var after := GetToken(value.rest, comments);
    SignLexed(value.rest, comments);
    var all := Insert(acc, key.val, value.val);
    var next := NoPair;
    if after.token.ValueSep? { next := PairsParsed(after.rest[1..], all, comments); }
    ps := Pair(key.val, v, next);
    assert Collect(acc, ps) == Collect(all, next);
  }

  lemma {:induction false} ArrayParsed(s: text, comments: bool) returns (es: Items)
    requires ParseArray(s, comments).POk?
    ensures var r := ParseArray(s, comments);
      GoodItems(es) && JArray(Each(es)) == r.val && Lex(s, comments) == SpellItems(es, Lex(r.rest, comments))
    decreases |s|, 2
  {
    hide GetToken, ParseElements, From, Spell;
    var l := GetToken(s, comments);
    if l.token.ArrayEnd? {
      SignLexed(s, comments);
      es := NoItem;
    } else {
      es := ItemsParsed(l, NoElement, comments);
      assert Join(NoElement, Each(es)) == Each(es);
    }
  }

  lemma {:induction false} ItemsParsed(l: Lexed, acc: Elements, comments: bool) returns (es: Items)
    requires AtMark(l) && ParseElements(l.token, l.rest, acc, comments).POk?
    ensures var r := ParseElements(l.token, l.rest, acc, comments);
      && es.Item? && GoodItems(es) && JArray(Join(acc, Each(es))) == r.val
      && From(l, comments) == SpellItems(es, Lex(r.rest, comments))
    decreases |l.rest|, 1
  {
    hide GetToken, ParseValue, Spell, From, Append, Join, Meaning;
    var v := ValueParsed(l, comments);
    var value := ParseValue(l.token, l.rest, comments);
    var after := GetToken(value.rest, comments);
    SignLexed(value.rest, comments);
    var all := Append(acc, value.val);
    var next := NoItem;
    if after.token.ValueSep? { next := ItemsParsed(GetToken(after.rest[1..], comments), all, comments); }
    es := Item(v, next);
    AppendLast(acc, value.val, Each(next));
    JoinNone(all);
    assert Each(es) == Element(Meaning(v), Each(next));
  }

  /** A text is parsed to a tree if and only if its lexemes are those of a value with this
      meaning, and it is empty if and only if it has none. */
  lemma ParsedExactly(s: text, comments: bool, j: Json)
    ensures ParseText(s, comments) == Tree(j)
       <==> s != [] && exists v :: Good(v) && Lex(SkipMark(s), comments) == Spell(v, []) && Meaning(v) == j
    ensures ParseText(s, comments) == Empty <==> s != [] && Lex(SkipMark(s), comments) == []
  {
    hide GetToken, ParseValue, From, Spell, Meaning;
    var t := SkipMark(s);
    var l := GetToken(t, comments);
    Lexes(t, comments);
    if ParseText(s, comments) == Tree(j) {
      var r := ParseValue(l.token, l.rest, comments);
      var v := ValueParsed(l, comments);
      Lexes(r.rest, comments);
    }
    if v :| s != [] && Good(v) && Lex(t, comments) == Spell(v, []) && Meaning(v) == j {
      SpellSome(v, []);
      ValueSpelled(v, l, [], comments);
      Lexes(ParseValue(l.token, l.rest, comments).rest, comments);
    }
  }

  lemma SpellSome(v: Value, more: seq<Lexeme>)
    ensures Spell(v, more) != []
  {
  }

  /** Only the lexemes of a text matter. */
  lemma OnlyLexemes(s: text, a: bool, t: text, b: bool)
    requires s != [] && t != [] && Lex(SkipMark(s), a) == Lex(SkipMark(t), b)
    ensures ParseText(s, a) == ParseText(t, b)
  {
    hide GetToken, ParseValue, From, Spell, Meaning, Lex, ParseText;
    var p, q := ParseText(s, a), ParseText(t, b);
    ParsedExactly(s, a, if p.Tree? then p.json else JNull);
    ParsedExactly(t, b, if p.Tree? then p.json else JNull);
    ParsedExactly(t, b, if q.Tree? then q.json else JNull);
    ParsedExactly(s, a, if q.Tree? then q.json else JNull);
  }

  // ---------------------------------------------------------------- spaces and comments

  /** What may be between lexemes: a white space character, a comment up to the end of its
      line, or one that is closed. */
  datatype Skip = Blank(c: char) | Line(w: text) | Block(w: text)

  function SkipText(k: Skip): text {
    match k
    case Blank(c) => [c]
    case Line(w) => ['/', '/'] + (w + ['\n'])
    case Block(w) => ['/', '*'] + (w + ['*', '/'])
  }

  predicate Skippable(k: Skip) {
    match k
    case Blank(c) => IsSpace(c)
    case Line(w) => forall c :: c in w ==> c != '\n' && c != '\0'
    case Block(w) => (forall c :: c in w ==> c != '\0') && forall i :: 0 < i < |w| && w[i] == '/' ==> w[i - 1] != '*'
  }

  function Gap(ks: seq<Skip>, s: text): text { if ks == [] then s else SkipText(ks[0]) + Gap(ks[1..], s) }

  predicate Allowed(ks: seq<Skip>, comments: bool) {
    forall i :: 0 <= i < |ks| ==> Skippable(ks[i]) && (comments || ks[i].Blank?)
  }

  lemma {:induction false} LineSkipped(w: text, s: text)
    requires Skippable(Line(w))
    ensures LineComment(w + (['\n'] + s)) == ['\n'] + s
    decreases |w|
  {
    var t := w + (['\n'] + s);
    if w == [] {
      assert t == ['\n'] + s;
    } else {
      assert w[0] in w && t[0] == w[0] && t[1..] == w[1..] + (['\n'] + s);
      assert forall c :: c in w[1..] ==> c in w;
      LineSkipped(w[1..], s);
    }
  }

  lemma {:induction false} BlockSkipped(w: text, star: bool, s: text)
    requires Skippable(Block(w)) && (star && w != [] ==> w[0] != '/')
    ensures BlockComment(w + (['*', '/'] + s), star) == Some(s)
    decreases |w|
  {
    var t := w + (['*', '/'] + s);
    if w == [] {
      assert t == ['*', '/'] + s && t[1..] == ['/'] + s && t[1..][1..] == s;
    } else {
      assert w[0] in w && t[0] == w[0] && t[1..] == w[1..] + (['*', '/'] + s);
      assert |w| > 1 && w[1] == '/' ==> w[0] != '*';
      assert forall c :: c in w[1..] ==> c in w;
      BlockSkipped(w[1..], w[0] == '*', s);
    }
  }

  lemma SkipLine(w: text, s: text)
    requires Skippable(Line(w))
    ensures GetToken(SkipText(Line(w)) + s, true) == GetToken(['\n'] + s, true)
  {
    hide Skippable, LineComment;
    var t := SkipText(Line(w)) + s;
    LineSkipped(w, s);
    assert t[0] == '/' && t[1..][0] == '/';
    assert t[1..][1..] == w + (['\n'] + s);
    assert SkipComment(t) == Comment(true, ['\n'] + s);
    assert SkipSpaces(t) == t;
  }

  lemma SkipBlock(w: text, s: text)
    requires Skippable(Block(w))
    ensures GetToken(SkipText(Block(w)) + s, true) == GetToken(s, true)
  {
    hide Skippable, BlockComment, LineComment;
    var t := SkipText(Block(w)) + s;
    BlockSkipped(w, false, s);
    assert t[0] == '/' && t[1..][0] == '*';
    assert t[1..][1..] == w + (['*', '/'] + s);
    assert SkipComment(t) == Comment(true, s);
    assert SkipSpaces(t) == t;
  }

  lemma SkipOne(k: Skip, s: text, comments: bool)
    requires Skippable(k) && (comments || k.Blank?)
    ensures GetToken(SkipText(k) + s, comments) == GetToken(s, comments)
  {
    hide GetToken;
    match k
    case Blank(c) => TokenBehind([c], s, comments);
    case Line(w) =>
      SkipLine(w, s);
      TokenBehind(['\n'], s, comments);
    case Block(w) => SkipBlock(w, s);
  }

  /** White space and comments in front of a token do not change it. */
  lemma {:induction false} GapSkipped(ks: seq<Skip>, s: text, comments: bool)
    requires Allowed(ks, comments)
    ensures GetToken(Gap(ks, s), comments) == GetToken(s, comments)
    decreases |ks|
  {
    hide GetToken;
    if ks != [] {
      SkipOne(ks[0], Gap(ks[1..], s), comments);
      GapSkipped(ks[1..], s, comments);
    }
  }

  // ---------------------------------------------------------------- spelled lexemes

  /** A text that is one lexeme on its own: a single character, a quoted string, a number or
      a keyword. */
  predicate IsText(w: text, x: Lexeme) {
    match x
    case Sign(t) => |w| == 1 && Mark(w[0]) == t && IsMark(t) && !t.StrToken? && !t.NumToken?
    case Atom(j) =>
      (match j
       case JString(val) => w != [] && w[0] == '"' && StrBody(w[1..], None) == POk(val, [])
       case JNumber(n) => GetNum(w) == POk(n, [])
       case JBool(b) => w == if b then "true" else "false"
       case JNull => w == "null"
       case _ => false)
    case Broken => false
  }

  /** A number or a keyword, which reads on until a character that delimits it. */
  predicate Open(x: Lexeme) { x.Atom? && !x.json.JString? }

  lemma Read4Far(s: text, t: text)
    requires Read4(s).Some?
    ensures Read4(s + t) == Read4(s) && (s + t)[4..] == s[4..] + t
  {
    assert forall i :: 0 <= i < 4 ==> (s + t)[i] == s[i];
  }

  lemma UProcFar(s: text, w1: Option<nat>, t: text)
    requires (w1.Some? ==> w1.value < 1024) && !UProc(s, w1).UBad?
    ensures var u, f := UProc(s, w1), UProc(s + t, w1);
      && (u.UHigh? ==> f == UHigh(u.w1, u.rest + t))
      && (u.UChar? ==> f == UChar(u.out, u.rest + t))
  {
    hide PutUtf8;
    Read4Far(s, t);
  }

  lemma RawFar(s: text, t: text)
    requires s != [] && RawLength(s) > 0
    ensures var n := RawLength(s); RawLength(s + t) == n && (s + t)[..n] == s[..n] && (s + t)[n..] == s[n..] + t
  {
    assert forall i :: 0 <= i < |s| ==> (s + t)[i] == s[i];
  }

  /** A string is read up to its quotation mark, whatever is behind it. */
  lemma {:induction false} StrFar(s: text, w1: Option<nat>, t: text)
    requires (w1.Some? ==> w1.value < 1024) && StrBody(s, w1).POk?
    ensures var r := StrBody(s, w1); StrBody(s + t, w1) == POk(r.val, r.rest + t)
    decreases |s|
  {
    hide UProc, RawLength;
    var f := s + t;
    assert f[0] == s[0] && f[1..] == s[1..] + t;
    if s[0] == '\\' {
      var e := s[1..];
      assert f[1..][0] == e[0] && f[1..][1..] == e[1..] + t;
      if e[0] == 'u' {
        UProcFar(e[1..], w1, t);
        var u := UProc(e[1..], w1);
        StrFar(u.rest, if u.UHigh? then Some(u.w1) else None, t);
      } else {
        StrFar(e[1..], None, t);
      }
    } else if s[0] != '"' {
      RawFar(s, t);
      StrFar(s[RawLength(s)..], None, t);
    }
  }

  lemma {:induction false} LoopFar(st: NumState, s: text, t: text)
    requires NumLoop(st, s).POk? && NumLoop(st, s).rest == []
    ensures Delimits(t) ==> NumLoop(st, s + t) == POk(NumLoop(st, s).val, t)
    ensures t != [] && t[0] == '/' ==> NumLoop(st, s + t) == PFail
    decreases |s|
  {
    hide NumStep;
    if s == [] {
      assert s + t == t;
      Solidus(st);
    } else {
      assert (s + t)[0] == s[0] && (s + t)[1..] == s[1..] + t;
      LoopFar(NumStep(st, s[0]).value, s[1..], t);
    }
  }

  lemma Solidus(st: NumState)
    ensures NumStep(st, '/') == None
  {
  }

  /** A number in front of a delimiter is read as it is, and one in front of a comment is
      refused. */
  lemma NumFar(w: text, n: Number, t: text)
    requires GetNum(w) == POk(n, [])
    ensures w != [] && Mark(w[0]) == NumToken
    ensures Delimits(t) ==> GetNum(w + t) == POk(n, t)
    ensures t != [] && t[0] == '/' ==> GetNum(w + t) == PFail
  {
    hide NumLoop;
    var st := NumStart(w).value;
    assert (w + t)[0] == w[0] && (w + t)[1..] == w[1..] + t;
    LoopFar(st, w[1..], t);
    if w[0] == '-' { assert (w + t)[1] == w[1]; }
  }

  lemma KeyWords(j: Json)
    requires j.JBool? || j.JNull?
    ensures var w: text := if j.JNull? then "null" else if j.b then "true" else "false";
      && IsText(w, Atom(j)) && w != [] && Letters(w)
      && forall t :: Delimits(t) ==>
           var l := Keyword(t, w);
           IsWord(l.token) && l.rest == t && WordOf(l.token) == j
  {
    assert |"true"| != |"false"| && |"null"| != |"false"| && "true"[0] != "null"[0];
  }

  /** A spelled lexeme is read, and then what is behind it. */
  lemma TextLexed(w: text, x: Lexeme, t: text, comments: bool)
    requires IsText(w, x) && (Open(x) ==> Delimits(t))
    ensures Lex(w + t, comments) == [x] + Lex(t, comments)
  {
    hide GetToken, StrBody, GetNum, Keyword;
    var s := w + t;
    if x.Sign? {
      TokenAt(s, comments);
      assert s[1..] == t;
    } else if x.json.JString? {
      TokenAt(s, comments);
      assert s[1..] == w[1..] + t;
      StrFar(w[1..], None, t);
      assert [] + t == t;
    } else if x.json.JNumber? {
      NumFar(w, x.json.n, t);
      TokenAt(s, comments);
    } else {
      KeyWords(x.json);
      TokenWord(w, t, comments);
    }
  }

  // ---------------------------------------------------------------- comments between lexemes

  /** A lexeme as it stands in a text, with what is in front of it. */
  datatype Piece = Piece(gap: seq<Skip>, w: text, x: Lexeme)

  /** The text of pieces, with a gap at its end. */
  function Woven(ps: seq<Piece>, last: seq<Skip>): text {
    if ps == [] then Gap(last, []) else Gap(ps[0].gap, ps[0].w + Woven(ps[1..], last))
  }

  /** The pieces are spelled, and numbers and keywords are followed by a delimiter. */
  ghost predicate Fits(ps: seq<Piece>, last: seq<Skip>, comments: bool) {
    && Allowed(last, comments)
    && forall i :: 0 <= i < |ps| ==>
         && Allowed(ps[i].gap, comments) && IsText(ps[i].w, ps[i].x)
         && (Open(ps[i].x) ==> Delimits(Woven(ps[i + 1..], last)))
  }

  function Lexemes(ps: seq<Piece>): seq<Lexeme> { seq(|ps|, i requires 0 <= i < |ps| => ps[i].x) }

  lemma {:induction false} WovenLexed(ps: seq<Piece>, last: seq<Skip>, comments: bool)
    requires Fits(ps, last, comments)
    ensures Lex(Woven(ps, last), comments) == Lexemes(ps)
    decreases |ps|
  {
    hide GetToken, From, IsText, Gap, Delimits;
    if ps == [] {
      GapSkipped(last, [], comments);
      EndAgain(comments);
      Lexes(Gap(last, []), comments);
    } else {
      var next := Woven(ps[1..], last);
      GapSkipped(ps[0].gap, ps[0].w + next, comments);
      TextLexed(ps[0].w, ps[0].x, next, comments);
      FitsNext(ps, last, comments);
      WovenLexed(ps[1..], last, comments);
      assert Lexemes(ps) == [ps[0].x] + Lexemes(ps[1..]);
    }
  }

  lemma FitsNext(ps: seq<Piece>, last: seq<Skip>, comments: bool)
    requires ps != [] && Fits(ps, last, comments)
    ensures Fits(ps[1..], last, comments)
  {
    hide IsText, Allowed, Delimits, Woven;
    forall i | 0 <= i < |ps| - 1
      ensures ps[1..][i] == ps[i + 1] && ps[1..][i + 1..] == ps[i + 2..]
    {
    }
  }

  lemma {:induction false} GapFirst(ks: seq<Skip>, s: text, comments: bool)
    requires Allowed(ks, comments) && s != [] && s[0] != Octet(0xef)
    ensures Gap(ks, s) != [] && Gap(ks, s)[0] != Octet(0xef)
    decreases |ks|
  {
    if ks != [] { GapFirst(ks[1..], s, comments); }
  }

  /** The text starts without a byte order mark. */
  lemma WovenFirst(ps: seq<Piece>, last: seq<Skip>, comments: bool)
    requires ps != [] && Fits(ps, last, comments)
    ensures Woven(ps, last) != [] && SkipMark(Woven(ps, last)) == Woven(ps, last)
  {
    hide GetNum, StrBody, Gap, Mark;
    var w, x, next := ps[0].w, ps[0].x, Woven(ps[1..], last);
    if x.Atom? && x.json.JNumber? { NumFar(w, x.json.n, []); }
    MarkFirst(w);
    GapFirst(ps[0].gap, w + next, comments);
  }

  lemma MarkFirst(w: text)
    ensures w != [] && IsMark(Mark(w[0])) ==> w[0] != Octet(0xef)
  {
  }

  /** A text of lexemes with comments between them, in front and at the end is parsed as any
      text with the same lexemes, such as the one without comments. */
  lemma CommentsIgnored(ps: seq<Piece>, last: seq<Skip>, qs: seq<Piece>, end: seq<Skip>, comments: bool)
    requires ps != [] && Fits(ps, last, true) && Fits(qs, end, comments) && Lexemes(ps) == Lexemes(qs)
    ensures ParseText(Woven(ps, last), true) == ParseText(Woven(qs, end), comments)
  {
    hide Fits, Woven, Lex, ParseText;
    assert |Lexemes(ps)| == |ps| && |Lexemes(qs)| == |qs|;
    WovenFirst(ps, last, true);
    WovenFirst(qs, end, comments);
    WovenLexed(ps, last, true);
    WovenLexed(qs, end, comments);
    OnlyLexemes(Woven(ps, last), true, Woven(qs, end), comments);
  }

  /** The text of a value, with any gaps, is parsed to the meaning of the value. */
  lemma WovenParsed(v: Value, ps: seq<Piece>, last: seq<Skip>, comments: bool)
    requires Good(v) && Fits(ps, last, comments) && Lexemes(ps) == Spell(v, [])
    ensures ParseText(Woven(ps, last), comments) == Tree(Meaning(v))
  {
    hide Fits, Woven, Lex, ParseText, Spell, Meaning, Good;
    SpellSome(v, []);
    assert |Lexemes(ps)| == |ps|;
    WovenFirst(ps, last, comments);
    WovenLexed(ps, last, comments);
    ParsedExactly(Woven(ps, last), comments, Meaning(v));
  }

  /** Directly behind a number or a keyword a comment is not skipped: the value is refused. */
  lemma CommentBehind(w: text, x: Lexeme, t: text, comments: bool)
    requires IsText(w, x) && Open(x)
    ensures var l := GetToken(w + (['/'] + t), comments); ParseValue(l.token, l.rest, comments) == PFail
  {
    hide GetNum, StrBody;
    var s := w + (['/'] + t);
    if x.json.JNumber? {
      NumFar(w, x.json.n, ['/'] + t);
      TokenAt(s, comments);
    } else {
      KeyWords(x.json);
      WordBroken(w, "", ['/'] + t);
      assert SkipSpaces(s) == s by { assert s[0] == w[0] && w[0] in w; }
    }
  }

  lemma {:induction false} WordBroken(w: text, key: text, t: text)
    requires Letters(w) && t != [] && t[0] == '/'
    ensures Keyword(w + t, key) == Lexed(Invalid, t)
    decreases |w|
  {
    if w == [] {
      assert w + t == t;
    } else {
      assert w[0] in w && (w + t)[0] == w[0] && (w + t)[1..] == w[1..] + t;
      assert forall c :: c in w[1..] ==> c in w;
      WordBroken(w[1..], key + [w[0]], t);
    }
  }
}
