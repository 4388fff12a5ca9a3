/**
 SA files that are written from associations, and read again.
 */
module SaTexts {
  import opened Octets
  import opened Texts
  import opened Base64
  import opened SecurityAssociation
  import D = JsonDecimal

  predicate Word(w: seq<char>) { w != [] && forall c :: c in w ==> !IsSpace(c) }

  const SEPARATORS: set<char> := {' ', '\t', '\n', '\r'}

  // ---------------------------------------------------------------- numbers

  lemma {:induction false} DecimalRead(n: nat)
    ensures var s := D.DecText(n);
      && Word(s) && (forall c :: c in s ==> '0' <= c <= '9') && Digits(s, 10) == Some(n) && (s[0] == '0' ==> n == 0 && s == "0")
    decreases n
  {
    var s := D.DecText(n);
    if n < 10 {
      assert s[..0] == [] && Digits([], 10) == Some(0);
    } else {
      DecimalRead(n / 10);
      var t := D.DecText(n / 10);
      assert s[..|s| - 1] == t && s[0] == t[0] && s == t + [s[|s| - 1]];
    }
  }

  /** A decimal number is read in base 0 as it is. */
  lemma NumberRead(n: nat)
    ensures WholeNumber(D.DecText(n), 0) == Some(n)
  {
    var s := D.DecText(n);
    DecimalRead(n);
    assert s[0] in s;
    assert SkipSpaces(s) == s;
    if s[0] == '0' { assert Digits("0"[..0], 8) == Some(0); }
  }

  // ---------------------------------------------------------------- words

  lemma WordBefore(w: seq<char>, t: seq<char>)
    requires Word(w) && (t == [] || IsSpace(t[0]))
    ensures Before(w + t, SPACES) == w && SkipSpaces(w + t) == w + t
  {
    BeforeAll(w, t, SPACES);
    assert (w + t)[0] == w[0] && w[0] in w;
  }

  /** The words behind the first one. */
  lemma FirstWord(w: seq<char>, v: seq<char>, t: seq<char>)
    requires Word(w) && Word(v)
    ensures var s := w + ([' '] + (v + t)); Before(s, SPACES) == w && AfterWord(s) == v + t && SkipSpaces(s) == s
  {
    var rest := v + t;
    var s := w + ([' '] + rest);
    WordBefore(w, [' '] + rest);
    assert s[|w| + 1..] == rest;
    assert rest[0] == v[0] && v[0] in v;
    assert SkipSpaces(rest) == rest;
  }

  lemma LastWord(w: seq<char>)
    requires Word(w)
    ensures Tokens(w + ['\n'], SEPARATORS) == [w]
  {
    TokenThen(w, '\n', [], SEPARATORS);
    assert w + ['\n'] + [] == w + ['\n'];
    assert Tokens([], SEPARATORS) == [] && [w] + [] == [w];
  }

  lemma NextWord(w: seq<char>, t: seq<char>)
    requires Word(w)
    ensures Tokens(w + ([' '] + t), SEPARATORS) == [w] + Tokens(t, SEPARATORS)
  {
    TokenThen(w, ' ', t, SEPARATORS);
    assert w + ([' '] + t) == w + [' '] + t;
  }

  // ---------------------------------------------------------------- keys

  /** How a value is written. */
  datatype Style = Ascii | Hex | B64(a: Alphabet, pad: bool)

  /** A key as a line has it: its kind is one of the four names. */
  datatype Entry = Entry(id: nat, kind: seq<char>, value: seq<octet>, style: Style, sized: bool)

  /** The keys that may be used: an AES key has exactly 16 or 32 octets. */
  predicate EntryOk(e: Entry) {
    && 0 < e.id < 0x1_0000_0000 && e.value != []
    && (e.style.Ascii? ==> forall o :: o in e.value ==> o != 32 && !(9 <= o <= 13))
    && (e.kind == "SHA256-128" || e.kind == "SHA256" || (e.kind == "AES128" && |e.value| == 16) || (e.kind == "AES256" && |e.value| == 32))
  }

  /** The key it stands for: SHA256 gives 32 octets of digest, all others 16. */
  function KeyFor(e: Entry): Key {
    Key(if e.kind == "AES128" then AES128 else if e.kind == "AES256" then AES256 else SHA256, e.value, if e.kind == "SHA256" then 32 else 16)
  }

  function Characters(b: seq<octet>): seq<char> { seq(|b|, i requires 0 <= i < |b| => b[i] as char) }

  function ValueText(e: Entry): seq<char> {
    match e.style
    case Ascii => "ASCII:" + Characters(e.value)
    case Hex => "HEX:" + ToHex(e.value)
    case B64(a, pad) => "B64:" + Encode(e.value, pad, Symbol62(a), Symbol63(a))
  }

  function EntryLine(e: Entry): seq<char> {
    D.DecText(e.id) + ([' '] + (e.kind + ([' '] + ((if e.sized then D.DecText(|e.value|) + [' '] else []) + (ValueText(e) + ['\n'])))))
  }

  lemma {:induction false} HexWord(b: seq<octet>)
    ensures forall c :: c in ToHex(b) ==> !IsSpace(c)
    decreases |b|
  {
    if b != [] { HexWord(b[1..]); }
  }

  lemma {:induction false} SymbolsWord(v: seq<sextet>, a: Alphabet)
    ensures forall c :: c in Symbols(v, Symbol62(a), Symbol63(a)) ==> !IsSpace(c)
    decreases |v|
  {
    if v != [] { SymbolsWord(v[1..], a); }
  }

  lemma ValueWord(e: Entry)
    requires EntryOk(e)
    ensures Word(ValueText(e))
  {
    match e.style
    case Ascii =>
      forall c | c in ValueText(e) ensures !IsSpace(c) {
        if c in Characters(e.value) {
          var i :| 0 <= i < |e.value| && c == Characters(e.value)[i];
          assert e.value[i] in e.value;
        }
      }
    case Hex => HexWord(e.value);
    case B64(a, pad) => SymbolsWord(ToSextets(e.value), a);
  }

  lemma ValueRead(e: Entry)
    requires EntryOk(e)
    ensures KeyValue(ValueText(e)) == Some(e.value)
  {
    hide Encode, Decode, ToHex, FromHex;
    match e.style
    case Ascii => AsciiRead(e.value);
    case Hex =>
      HexRoundTrip(e.value);
      Prefixed("HEX:", ToHex(e.value));
    case B64(a, pad) =>
      Base64RoundTrip(e.value, a, pad, false);
      Prefixed("B64:", Encode(e.value, pad, Symbol62(a), Symbol63(a)));
  }

  lemma AsciiRead(b: seq<octet>)
    ensures KeyValue("ASCII:" + Characters(b)) == Some(b)
  {
    var s := "ASCII:" + Characters(b);
    assert s[..6] == "ASCII:" && s[6..] == Characters(b);
    assert Chars(Characters(b)) == b;
  }

  lemma Prefixed(p: seq<char>, t: seq<char>)
    requires p == "HEX:" || p == "B64:"
    ensures KeyValue(p + t) == if p == "HEX:" then FromHex(t) else Decode(t, false)
  {
    hide FromHex, Decode;
    var s := p + t;
    assert s[..4] == p && s[4..] == t && s[0] == p[0];
    if |s| >= 6 { assert s[..6][0] == p[0]; }
  }

  /** The words of the line of a key. */
  lemma EntryWords(e: Entry)
    requires EntryOk(e)
    ensures var s := EntryLine(e);
      && SkipSpaces(s) == s && s != [] && '0' <= s[0] <= '9' && Before(s, SPACES) == D.DecText(e.id)
      && Tokens(AfterWord(s), {' ', '\t', '\n', '\r'}) == [e.kind] + (if e.sized then [D.DecText(|e.value|)] else []) + [ValueText(e)]
  {
    hide ValueText, D.DecText, Tokens, SkipSpaces, Before, AfterWord;
    DecimalRead(e.id);
    DecimalRead(|e.value|);
    ValueWord(e);
    KindWord(e.kind);
    var v := ValueText(e) + ['\n'];
    var tail := if e.sized then D.DecText(|e.value|) + ([' '] + v) else v;
    assert (if e.sized then D.DecText(|e.value|) + [' '] else []) + v == tail;
    FirstWord(D.DecText(e.id), e.kind, [' '] + tail);
    NextWord(e.kind, tail);
    LastWord(ValueText(e));
    if e.sized { NextWord(D.DecText(|e.value|), v); }
    assert EntryLine(e)[0] == D.DecText(e.id)[0] && D.DecText(e.id)[0] in D.DecText(e.id);
  }

  /** The line of a key gives the key. */
  lemma EntryRead(e: Entry)
    requires EntryOk(e)
    ensures var s := EntryLine(e);
      SkipSpaces(s) == s && s != [] && '0' <= s[0] <= '9' && ReadKeyLine(s) == Some(KeyLine(e.id, KeyFor(e)))
  {
    hide WholeNumber, KeyValue, ValueText, EntryLine, Tokens, D.DecText, AfterWord, Before, SkipSpaces;
    NumberRead(e.id);
    NumberRead(|e.value|);
    ValueRead(e);
    EntryWords(e);
  }

  lemma KindWord(kind: seq<char>)
    requires kind == "SHA256-128" || kind == "SHA256" || kind == "AES128" || kind == "AES256"
    ensures Word(kind)
  {
  }

  // ---------------------------------------------------------------- files

  datatype Section = Section(id: nat, entries: seq<Entry>)

  predicate SectionOk(s: Section) {
    && s.id < 256 && s.entries != [] && (forall i :: 0 <= i < |s.entries| ==> EntryOk(s.entries[i]))
    && forall i, k :: 0 <= i < k < |s.entries| ==> s.entries[i].id != s.entries[k].id
  }

  const HEAD: seq<char> := "[security_association]" + ['\n']

  function SppLine(id: nat): seq<char> { "spp" + ([' '] + (D.DecText(id) + ['\n'])) }

  function EntryLines(es: seq<Entry>): seq<seq<char>> { if es == [] then [] else [EntryLine(es[0])] + EntryLines(es[1..]) }

  /** The lines of a file with these sections. */
  function FileLines(ss: seq<Section>): seq<seq<char>> {
    if ss == [] then [] else [HEAD, SppLine(ss[0].id)] + EntryLines(ss[0].entries) + FileLines(ss[1..])
  }

  lemma HeadRead(r: Reader)
    ensures ReadLine(r, HEAD) == match CloseSpp(r) case None => None case Some(spps) => Some(Reader(1, r.spp, spps))
  {
    var name, tail := "security_association", [']', '\n'];
    assert HEAD[1..] == name + tail;
    assert SkipSpaces(HEAD) == HEAD;
    var rest := name + tail;
    assert rest[0] == 's' && SkipSpaces(rest) == rest;
    assert tail[0] == ']' && rest[|name|] == ']';
    BeforeAll(name, tail, {']'});
    assert name[|name| - 1] == 'n' && StripEnd(name) == name;
  }

  lemma StripLine(w: seq<char>)
    requires Word(w)
    ensures StripEnd(w + ['\n']) == w
  {
    var s := w + ['\n'];
    assert s[..|s| - 1] == w && w[|w| - 1] in w;
  }

  lemma SppRead(r: Reader, id: nat)
    requires r.step == 1 && id < 256
    ensures ReadLine(r, SppLine(id)) == Some(Reader(2, Spp(id, map[]), r.spps))
  {
    hide WholeNumber, StripEnd;
    var s := SppLine(id);
    DecimalRead(id);
    NumberRead(id);
    assert Word("spp");
    FirstWord("spp", D.DecText(id), ['\n']);
    StripLine(D.DecText(id));
    assert s[0] == 's';
  }

  function KeysFrom(keys: KeyMap, es: seq<Entry>): KeyMap
    decreases |es|
  {
    if es == [] then keys else KeysFrom(keys[es[0].id := KeyFor(es[0])], es[1..])
  }

  lemma EntryTaken(r: Reader, e: Entry)
    requires r.step == 2 && EntryOk(e) && e.id !in r.spp.keys
    ensures ReadLine(r, EntryLine(e)) == Some(r.(spp := Spp(r.spp.ownId, r.spp.keys[e.id := KeyFor(e)])))
  {
    hide EntryLine, ReadKeyLine;
    EntryRead(e);
  }

  lemma {:induction false} EntriesTaken(r: Reader, es: seq<Entry>, rest: seq<seq<char>>)
    requires r.step == 2 && (forall i :: 0 <= i < |es| ==> EntryOk(es[i]) && es[i].id !in r.spp.keys)
    requires forall i, k :: 0 <= i < k < |es| ==> es[i].id != es[k].id
    ensures ReadLines(r, EntryLines(es) + rest) == ReadLines(r.(spp := Spp(r.spp.ownId, KeysFrom(r.spp.keys, es))), rest)
    decreases |es|
  {
    hide EntryOk, EntryLine, ReadLine, KeyFor;
    var lines := EntryLines(es) + rest;
    if es == [] {
      assert lines == rest;
    } else {
      EntryTaken(r, es[0]);
      assert lines[0] == EntryLine(es[0]) && lines[1..] == EntryLines(es[1..]) + rest;
      var next := r.(spp := Spp(r.spp.ownId, r.spp.keys[es[0].id := KeyFor(es[0])]));
      forall i | 0 <= i < |es[1..]| ensures EntryOk(es[1..][i]) && es[1..][i].id !in next.spp.keys { assert es[1..][i] == es[i + 1]; }
      EntriesTaken(next, es[1..], rest);
    }
  }

  function SppsFrom(spps: SppMap, ss: seq<Section>): SppMap
    decreases |ss|
  {
    if ss == [] then spps else SppsFrom(spps[ss[0].id := Spp(ss[0].id, KeysFrom(map[], ss[0].entries))], ss[1..])
  }

  lemma {:induction false} FileTaken(r: Reader, ss: seq<Section>)
    requires CloseSpp(r).Some? && forall i :: 0 <= i < |ss| ==> SectionOk(ss[i])
    ensures ReadLines(r, FileLines(ss)) == Some(SppsFrom(CloseSpp(r).value, ss))
    decreases |ss|
  {
    hide HEAD, SppLine, EntryLines, ReadLine, SectionOk;
    if ss != [] {
      var s, rest := ss[0], FileLines(ss[1..]);
      SectionParts(s);
      var lines := FileLines(ss);
      var r1 := Reader(1, r.spp, CloseSpp(r).value);
      var r2 := Reader(2, Spp(s.id, map[]), r1.spps);
      var r3 := r2.(spp := Spp(s.id, KeysFrom(map[], s.entries)));
      HeadRead(r);
      SppRead(r1, s.id);
      assert lines[0] == HEAD && lines[1..][0] == SppLine(s.id) && lines[1..][1..] == EntryLines(s.entries) + rest;
      EntriesTaken(r2, s.entries, rest);
      SomeKeys(map[], s.entries);
      FileTaken(r3, ss[1..]);
    }
  }

  lemma SectionParts(s: Section)
    requires SectionOk(s)
    ensures s.id < 256 && s.entries != [] && forall i :: 0 <= i < |s.entries| ==> EntryOk(s.entries[i])
    ensures forall i, k :: 0 <= i < k < |s.entries| ==> s.entries[i].id != s.entries[k].id
  {
  }

  lemma {:induction false} SomeKeys(keys: KeyMap, es: seq<Entry>)
    requires keys != map[] || es != []
    ensures KeysFrom(keys, es) != map[]
    decreases |es|
  {
    if es != [] {
      var more := keys[es[0].id := KeyFor(es[0])];
      assert es[0].id in more;
      SomeKeys(more, es[1..]);
    }
  }

  lemma {:induction false} KeysAre(keys: KeyMap, es: seq<Entry>)
    requires forall i :: 0 <= i < |es| ==> es[i].id !in keys
    requires forall i, k :: 0 <= i < k < |es| ==> es[i].id != es[k].id
    ensures var all := KeysFrom(keys, es);
      && (forall i :: 0 <= i < |es| ==> es[i].id in all && all[es[i].id] == KeyFor(es[i]))
      && (forall k :: k in keys ==> k in all && all[k] == keys[k])
      && (forall k :: k in all ==> k in keys || exists i :: 0 <= i < |es| && es[i].id == k)
    decreases |es|
  {
    hide KeyFor;
    if es != [] {
      var more, rest := keys[es[0].id := KeyFor(es[0])], es[1..];
      forall i | 0 <= i < |rest| ensures rest[i].id !in more { assert rest[i] == es[i + 1]; }
      KeysAre(more, rest);
      var all := KeysFrom(keys, es);
      forall i | 0 <= i < |es| ensures es[i].id in all && all[es[i].id] == KeyFor(es[i]) {
        if i > 0 { assert es[i] == rest[i - 1]; } else { assert es[0].id in more; }
      }
      forall k | k in all && k !in keys ensures exists i :: 0 <= i < |es| && es[i].id == k {
        if k == es[0].id { assert es[0].id == k; } else {
          var i :| 0 <= i < |rest| && rest[i].id == k;
          assert es[i + 1].id == k;
        }
      }
    }
  }

  /** With distinct identifiers, the file gives each SPP with exactly its keys. */
  lemma {:induction false} SppsAre(spps: SppMap, ss: seq<Section>)
    requires forall i :: 0 <= i < |ss| ==> ss[i].id !in spps
    requires forall i, k :: 0 <= i < k < |ss| ==> ss[i].id != ss[k].id
    ensures var all := SppsFrom(spps, ss);
      && (forall i :: 0 <= i < |ss| ==> ss[i].id in all && all[ss[i].id] == Spp(ss[i].id, KeysFrom(map[], ss[i].entries)))
      && (forall k :: k in spps ==> k in all && all[k] == spps[k])
      && (forall k :: k in all ==> k in spps || exists i :: 0 <= i < |ss| && ss[i].id == k)
    decreases |ss|
  {
    hide KeysFrom;
    if ss != [] {
      var more, rest := spps[ss[0].id := Spp(ss[0].id, KeysFrom(map[], ss[0].entries))], ss[1..];
      forall i | 0 <= i < |rest| ensures rest[i].id !in more { assert rest[i] == ss[i + 1]; }
      SppsAre(more, rest);
      var all := SppsFrom(spps, ss);
      forall i | 0 <= i < |ss| ensures ss[i].id in all && all[ss[i].id] == Spp(ss[i].id, KeysFrom(map[], ss[i].entries)) {
        if i > 0 { assert ss[i] == rest[i - 1]; } else { assert ss[0].id in more; }
      }
      forall k | k in all && k !in spps ensures exists i :: 0 <= i < |ss| && ss[i].id == k {
        if k == ss[0].id { assert ss[0].id == k; } else {
          var i :| 0 <= i < |rest| && rest[i].id == k;
          assert ss[i + 1].id == k;
        }
      }
    }
  }

  /** Every file that is written from sections with distinct identifiers is accepted, and gives
      exactly these SPPs, with exactly their keys. */
  lemma FileBack(ss: seq<Section>)
    requires forall i :: 0 <= i < |ss| ==> SectionOk(ss[i])
    requires forall i, k :: 0 <= i < k < |ss| ==> ss[i].id != ss[k].id
    ensures ReadLines(START, FileLines(ss)).Some?
    ensures var m := ReadLines(START, FileLines(ss)).value;
      && (forall id :: id in m <==> exists i :: 0 <= i < |ss| && ss[i].id == id)
      && (forall i :: 0 <= i < |ss| ==> ss[i].id in m && HasEntries(m[ss[i].id], ss[i]))
  {
    hide KeysFrom, HasEntries, SectionOk;
    FileTaken(START, ss);
    SppsAre(map[], ss);
    var m := SppsFrom(map[], ss);
    forall i | 0 <= i < |ss| ensures HasEntries(m[ss[i].id], ss[i]) { SectionKept(ss[i]); }
  }

  ghost predicate HasEntries(spp: Spp, s: Section) {
    && spp.ownId == s.id
    && (forall k :: k in spp.keys <==> exists i :: 0 <= i < |s.entries| && s.entries[i].id == k)
    && (forall i :: 0 <= i < |s.entries| ==> s.entries[i].id in spp.keys && spp.keys[s.entries[i].id] == KeyFor(s.entries[i]))
  }

  lemma SectionKept(s: Section)
    requires SectionOk(s)
    ensures HasEntries(Spp(s.id, KeysFrom(map[], s.entries)), s)
  {
    hide KeyFor, EntryOk;
    KeysAre(map[], s.entries);
  }
}
