/**
 A whole TLV as JSON: its members, and a list at the end. What is written is a text that
 the parser accepts and the typed reader turns into the same TLV.
 */
module JsonTyped {
  import opened Octets
  import opened JsonText
  import opened JsonNumber
  import opened JsonTree
  import opened JsonWriting
  import opened JsonDecimal
  import opened JsonFields
  import C = TlvCodec
  import T = Texts

  /** A list holds objects, or clock identities. */
  datatype Lists = NoList | Records(rec: seq<Field>) | Clocks

  datatype Schema = Schema(fields: seq<Field>, list: Lists)

  datatype Doc = Doc(vals: seq<Val>, recs: seq<seq<Val>>)

  function NamesOf(fs: seq<Field>): nat { if fs == [] then 0 else NameCount(fs[0].kind) + NamesOf(fs[1..]) }

  /** The length of the list is one of the members. */
  function WithCount(c: Context, n: nat): Context { c.(count := (_: seq<Val>) => n) }

  // ---------------------------------------------------------------- writing

  /** The records have all the members of their table. */
  predicate InTable(l: Lists, recs: seq<seq<Val>>) {
    l.Records? ==> forall i :: 0 <= i < |recs| ==> Within(l.rec, |recs[i]|)
  }

  function ValuesOf(c: Context, l: Lists, recs: seq<seq<Val>>): Values
    requires InTable(l, recs)
    decreases |recs|
  {
    if recs == [] then NoValue
    else
      var v := recs[0];
      Value(if l.Records? then Object(ItemsOf(c, l.rec, v, 0, NoItem)) else Quoted(if v == [] then "" else ClockOf(v[0])),
            ValuesOf(c, l, recs[1..]))
  }

  function ListItems(c: Context, l: Lists, recs: seq<seq<Val>>, k: nat): Items
    requires InTable(l, recs)
  {
    if l.NoList? then NoItem else Item(c.spell(k), Array(ValuesOf(c, l, recs)), NoItem)
  }

  function DocItems(c: Context, sc: Schema, d: Doc): Items
    requires Within(sc.fields, |d.vals|)
    requires InTable(sc.list, d.recs)
  {
    ItemsOf(WithCount(c, |d.recs|), sc.fields, d.vals, 0, ListItems(c, sc.list, d.recs, NamesOf(sc.fields)))
  }

  // ---------------------------------------------------------------- reading

  function ReadRecord(c: Context, l: Lists, j: Json, blank: seq<Val>): Option<seq<Val>> {
    match l
    case Records(rec) => if j.JObject? then ReadFields(c, rec, j.members, 0, blank) else None
    case _ => ReadOctets(j, true, 8)
  }

  function ReadRecords(c: Context, l: Lists, es: Elements, blank: seq<Val>): Option<seq<seq<Val>>> {
    match es
    case NoElement => Some([])
    case Element(j, next) =>
      var v := ReadRecord(c, l, j, blank);
      if v.None? then None
      else
        var more := ReadRecords(c, l, next, blank);
        if more.None? then None else Some([v.value] + more.value)
  }

  function ReadList(c: Context, l: Lists, ms: Members, k: nat, blank: seq<Val>): Option<seq<seq<Val>>> {
    if l.NoList? then Some([])
    else
      var j := Get(ms, c.spell(k));
      if j.None? || !j.value.JArray? then None else ReadRecords(c, l, j.value.elements, blank)
  }

  function ReadDoc(c: Context, sc: Schema, ms: Members, blank: seq<Val>, blankRec: seq<Val>): Option<Doc> {
    var vals := ReadFields(c, sc.fields, ms, 0, blank);
    if vals.None? then None
    else
      var recs := ReadList(c, sc.list, ms, NamesOf(sc.fields), blankRec);
      if recs.None? then None else Some(Doc(vals.value, recs.value))
  }

  // ---------------------------------------------------------------- a TLV comes back

  ghost predicate RecordOk(c: Context, l: Lists, v: seq<Val>, blank: seq<Val>) {
    match l
    case Records(rec) => Within(rec, |v|) && FieldsOk(c, rec, v) && Fills(rec, v, blank)
    case _ => |v| == 1 && v[0].Bytes? && |v[0].b| == 8
  }

  /** The TLV can be written: its values fit the table, and the rest is as in an empty one. */
  ghost predicate DocOk(c: Context, sc: Schema, d: Doc, blank: seq<Val>, blankRec: seq<Val>) {
    && Within(sc.fields, |d.vals|) && FieldsOk(WithCount(c, |d.recs|), sc.fields, d.vals) && Fills(sc.fields, d.vals, blank)
    && (sc.list.NoList? ==> d.recs == []) && InTable(sc.list, d.recs)
    && forall i :: 0 <= i < |d.recs| ==> RecordOk(c, sc.list, d.recs[i], blankRec)
  }

  lemma {:induction false} FlagsSpelled(c: Context, bits: seq<nat>, n: nat, k: nat, tail: Items)
    requires Spelled(c, tail, k + |bits|)
    ensures Spelled(c, FlagItems(c, bits, n, k, tail), k)
    decreases |bits|
  {
    if bits != [] { FlagsSpelled(c, bits[1..], n, k + 1, tail); }
  }

  lemma {:induction false} ItemsSpelled(c: Context, fs: seq<Field>, vs: seq<Val>, k: nat, tail: Items)
    requires Within(fs, |vs|) && Spelled(c, tail, k + NamesOf(fs))
    ensures Spelled(c, ItemsOf(c, fs, vs, k, tail), k)
    decreases |fs|
  {
    if fs != [] {
      var f, more := fs[0], ItemsOf(c, fs[1..], vs, k + NameCount(fs[0].kind), tail);
      ItemsSpelled(c, fs[1..], vs, k + NameCount(f.kind), tail);
      if f.kind.Flags? { FlagsSpelled(c, f.kind.bits, FlagNum(vs[f.at]), k, more); }
    }
  }

  /** The tables of names do not depend on what is counted, and neither does reading. */
  lemma CountIgnored(c: Context, n: nat)
    requires ContextOk(c)
    ensures ContextOk(WithCount(c, n))
  {
    var d := WithCount(c, n);
    assert d.spell == c.spell && d.names == c.names;
    assert forall t :: DistinctNames(d.names(t)) by {
      forall t ensures DistinctNames(d.names(t)) { assert DistinctNames(c.names(t)); }
    }
    assert forall k :: Unescaped(d.spell(k)) by {
      forall k ensures Unescaped(d.spell(k)) { assert Unescaped(c.spell(k)); }
    }
  }

  lemma RecordBack(c: Context, l: Lists, v: seq<Val>, blank: seq<Val>)
    requires ContextOk(c) && RecordOk(c, l, v, blank) && !l.NoList? && InTable(l, [v])
    ensures ReadRecord(c, l, TreeOf(ValuesOf(c, l, [v]).node), blank) == Some(v)
  {
    hide ReadFields, ItemsOf, FieldsOk, Injective, ClockText, T.FromHex;
    if l.Records? {
      var items := ItemsOf(c, l.rec, v, 0, NoItem);
      ItemsSpelled(c, l.rec, v, 0, NoItem);
      AllHeld(c, items, 0, NoMember);
      FieldsBack(c, l.rec, v, 0, NoItem, MembersOf(items, NoMember), blank);
      MergedAll(l.rec, v, blank);
    } else {
      ClockBack(v[0].b);
      assert v == [v[0]];
    }
  }

  lemma {:induction false} RecordsBack(c: Context, l: Lists, recs: seq<seq<Val>>, blank: seq<Val>)
    requires ContextOk(c) && !l.NoList? && InTable(l, recs) && forall i :: 0 <= i < |recs| ==> RecordOk(c, l, recs[i], blank)
    ensures ReadRecords(c, l, ElementsOf(ValuesOf(c, l, recs)), blank) == Some(recs)
    decreases |recs|
  {
    hide ReadRecord, ItemsOf, ContextOk, ClockOf;
    if recs != [] {
      RecordBack(c, l, recs[0], blank);
      RecordsBack(c, l, recs[1..], blank);
      assert recs == [recs[0]] + recs[1..];
      assert [recs[0]][0] == recs[0];
    }
  }

  /** Reading the members of the object that was described gives the TLV. */
  lemma DocBack(c: Context, sc: Schema, d: Doc, blank: seq<Val>, blankRec: seq<Val>)
    requires ContextOk(c) && DocOk(c, sc, d, blank, blankRec)
    ensures ReadDoc(c, sc, MembersOf(DocItems(c, sc, d), NoMember), blank, blankRec) == Some(d)
  {
    hide ReadFields, ItemsOf, FieldsOk, RecordOk, Injective, ReadRecords, ValuesOf, Fills;
    var cc, tail := WithCount(c, |d.recs|), ListItems(c, sc.list, d.recs, NamesOf(sc.fields));
    var items := DocItems(c, sc, d);
    var ms := MembersOf(items, NoMember);
    CountIgnored(c, |d.recs|);
    ItemsSpelled(cc, sc.fields, d.vals, 0, tail);
    AllHeld(cc, items, 0, NoMember);
    FillsSize(sc.fields, d.vals, blank);
    FieldsBack(cc, sc.fields, d.vals, 0, tail, ms, blank);
    MergedAll(sc.fields, d.vals, blank);
    ReadIgnoresCount(c, |d.recs|, sc.fields, ms, 0, blank);
    if !sc.list.NoList? { RecordsBack(c, sc.list, d.recs, blankRec); }
  }

  lemma FillsSize(fs: seq<Field>, vs: seq<Val>, blank: seq<Val>)
    requires Fills(fs, vs, blank)
    ensures |blank| == |vs|
  {
  }

  lemma {:induction false} PartsIgnoreCount(c: Context, n: nat, parts: seq<Simple>, ms: Members, k: nat)
    ensures ReadParts(WithCount(c, n), parts, ms, k) == ReadParts(c, parts, ms, k)
    decreases |parts|
  {
    if parts != [] { PartsIgnoreCount(c, n, parts[1..], ms, k + 1); }
  }

  lemma {:induction false} FlagsIgnoreCount(c: Context, n: nat, bits: seq<nat>, ms: Members, k: nat, acc: nat)
    ensures ReadFlags(WithCount(c, n), bits, ms, k, acc) == ReadFlags(c, bits, ms, k, acc)
    decreases |bits|
  {
    if bits != [] {
      var j := Get(ms, c.spell(k));
      if j.Some? && j.value.JBool? {
        FlagsIgnoreCount(c, n, bits[1..], ms, k + 1, if j.value.b then BitOr(acc, Two(bits[0])) else acc);
      }
    }
  }

  lemma {:induction false} ReadIgnoresCount(c: Context, n: nat, fs: seq<Field>, ms: Members, k: nat, out: seq<Val>)
    ensures ReadFields(WithCount(c, n), fs, ms, k, out) == ReadFields(c, fs, ms, k, out)
    decreases |fs|
  {
    if fs != [] {
      match fs[0].kind {
        case One(_) =>
        case Flags(bits, _) => FlagsIgnoreCount(c, n, bits, ms, k, 0);
        case Struct(parts) =>
          var j := Get(ms, c.spell(k));
          if j.Some? && j.value.JObject? { PartsIgnoreCount(c, n, parts, j.value.members, 0); }
      }
      var v := ReadKind(c, fs[0].kind, ms, k);
      assert ReadKind(WithCount(c, n), fs[0].kind, ms, k) == v;
      if v.Some? { ReadIgnoresCount(c, n, fs[1..], ms, k + NameCount(fs[0].kind), Put(out, fs[0].at, v.value)); }
    }
  }

  // ---------------------------------------------------------------- through the text

  predicate Plain(c: char) { ' ' <= c <= '~' && c != '"' && c != '\\' }

  lemma {:induction false} PlainText(s: text) returns (cs: seq<nat>)
    requires forall c :: c in s ==> Plain(c)
    ensures Scalars(cs) && s == Utf8Text(cs) && forall c :: c in cs ==> c != 0 && c != 0x22 && c != 0x5c
    decreases |s|
  {
    if s == [] {
      cs := [];
    } else {
      assert forall c :: c in s[1..] ==> c in s;
      var more := PlainText(s[1..]);
      assert s[0] in s;
      var n := s[0] as int;
      cs := [n] + more;
      assert cs[1..] == more && Utf8(n) == [s[0]];
      assert s == [s[0]] + s[1..];
    }
  }

  lemma PlainUnescaped(s: text)
    requires forall c :: c in s ==> Plain(c)
    ensures Unescaped(s)
  {
    var cs := PlainText(s);
  }

  lemma {:induction false} HexIsPlain(b: seq<octet>)
    ensures forall c :: c in T.ToHex(b) ==> Plain(c)
    decreases |b|
  {
    if b != [] {
      HexIsPlain(b[1..]);
      ByteIsPlain(b[0]);
    }
  }

  lemma ByteIsPlain(v: octet)
    ensures forall c :: c in T.HexByte(v) ==> Plain(c)
  {
  }

  lemma {:induction false} IdIsPlain(b: seq<octet>)
    ensures forall c :: c in T.ToId(b, ':') ==> Plain(c)
    decreases |b|
  {
    if b != [] {
      ByteIsPlain(b[0]);
      IdIsPlain(b[1..]);
    }
  }

  lemma ClockUnescaped(b: seq<octet>)
    requires |b| == 8
    ensures Unescaped(ClockText(b))
  {
    hide T.ToHex;
    HexIsPlain(b[..3]);
    HexIsPlain(b[3..5]);
    HexIsPlain(b[5..]);
    PlainUnescaped(ClockText(b));
  }

  lemma SimpleWritable(c: Context, s: Simple, vs: seq<Val>, at: nat)
    requires SimpleOk(c, s, vs, at) && ContextOk(c)
    ensures Writable(SimpleNode(c, s, vs, at))
  {
    hide NumberForm, Unescaped, NumberOf, TimeNumber, ClockText, NameOf, DistinctNames, Injective, T.ToId;
    C.Pow256Values();
    match s
    case SUnsigned(_) => NumberOfBack(vs[at].n);
    case SSigned(_) => NumberOfBack(vs[at].n);
    case SEnum(t) => NameBack(c.names(t), vs[at].n);
    case STime => TimeBack(vs[at].n, vs[at + 1].n);
    case SClock => ClockUnescaped(vs[at].b);
    case SText =>
    case SBinary =>
      IdIsPlain(vs[at].b);
      PlainUnescaped(T.ToId(vs[at].b, ':'));
    case SOctets(_) =>
      IdIsPlain(vs[at].b);
      PlainUnescaped(T.ToId(vs[at].b, ':'));
    case STruth =>
    case SCount => NumberOfBack(c.count(vs));
  }

  lemma {:induction false} PartsWritable(c: Context, parts: seq<Simple>, vs: seq<Val>, at: nat, k: nat)
    requires at + PartsWidth(parts) <= |vs| && PartsOk(c, parts, vs, at) && ContextOk(c)
    ensures WritableItems(PartItems(c, parts, vs, at, k))
    decreases |parts|
  {
    hide SimpleOk, SimpleNode, Unescaped;
    if parts != [] {
      SimpleWritable(c, parts[0], vs, at);
      PartsWritable(c, parts[1..], vs, at + Width(parts[0]), k + 1);
    }
  }

  lemma {:induction false} FlagsWritable(c: Context, bits: seq<nat>, n: nat, k: nat, tail: Items)
    requires WritableItems(tail) && ContextOk(c)
    ensures WritableItems(FlagItems(c, bits, n, k, tail))
    decreases |bits|
  {
    hide Unescaped;
    if bits != [] { FlagsWritable(c, bits[1..], n, k + 1, tail); }
  }

  lemma {:induction false} FieldsWritable(c: Context, fs: seq<Field>, vs: seq<Val>, k: nat, tail: Items)
    requires Within(fs, |vs|) && FieldsOk(c, fs, vs) && ContextOk(c) && WritableItems(tail)
    ensures WritableItems(ItemsOf(c, fs, vs, k, tail))
    decreases |fs|
  {
    hide SimpleOk, SimpleNode, Unescaped, PartItems;
    if fs != [] {
      var f, more := fs[0], ItemsOf(c, fs[1..], vs, k + NameCount(fs[0].kind), tail);
      FieldsWritable(c, fs[1..], vs, k + NameCount(f.kind), tail);
      assert FieldOk(c, f, vs);
      match f.kind
      case One(s) => SimpleWritable(c, s, vs, f.at);
      case Flags(bits, _) => FlagsWritable(c, bits, FlagNum(vs[f.at]), k, more);
      case Struct(parts) => PartsWritable(c, parts, vs, f.at, 0);
    }
  }

  lemma {:induction false} ValuesWritable(c: Context, l: Lists, recs: seq<seq<Val>>, blank: seq<Val>)
    requires ContextOk(c) && !l.NoList? && InTable(l, recs) && forall i :: 0 <= i < |recs| ==> RecordOk(c, l, recs[i], blank)
    ensures WritableValues(ValuesOf(c, l, recs))
    decreases |recs|
  {
    hide FieldsOk, ItemsOf, ContextOk, Unescaped, Fills, ClockText;
    if recs != [] {
      assert RecordOk(c, l, recs[0], blank);
      if l.Records? { FieldsWritable(c, l.rec, recs[0], 0, NoItem); } else { ClockUnescaped(recs[0][0].b); }
      ValuesWritable(c, l, recs[1..], blank);
    }
  }

  /** A TLV written as JSON, at any indentation, is accepted by the parser, and reading the
      tree gives the same TLV. */
  lemma TypedBack(c: Context, sc: Schema, d: Doc, blank: seq<Val>, blankRec: seq<Val>, base: nat, comments: bool)
    requires ContextOk(c) && DocOk(c, sc, d, blank, blankRec)
    ensures var r := ParseText(ContainerTo(Object(DocItems(c, sc, d)), 0, base, []), comments);
      r.Tree? && r.json.JObject? && ReadDoc(c, sc, r.json.members, blank, blankRec) == Some(d)
  {
    hide ReadDoc, FieldsOk, RecordOk, ItemsOf, ValuesOf, ParseText, ContainerTo, Unescaped;
    CountIgnored(c, |d.recs|);
    var tail := ListItems(c, sc.list, d.recs, NamesOf(sc.fields));
    if !sc.list.NoList? { ValuesWritable(c, sc.list, d.recs, blankRec); }
    NamesUnescaped(c, NamesOf(sc.fields));
    assert WritableItems(tail);
    FieldsWritable(WithCount(c, |d.recs|), sc.fields, d.vals, 0, tail);
    WrittenBack(DocItems(c, sc, d), base, comments);
    DocBack(c, sc, d, blank, blankRec);
  }

  lemma NamesUnescaped(c: Context, k: nat)
    requires ContextOk(c)
    ensures Unescaped(c.spell(k))
  {
  }
}
