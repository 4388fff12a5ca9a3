/**
 What the typed reader accepts: an object that has every name of the table, once, with a
 value that can be read for its type. Nothing else is asked, and nothing less.
 */
module JsonAcceptance {
  import opened Octets
  import opened JsonText
  import opened JsonNumber
  import opened JsonTree
  import opened JsonDecimal
  import opened JsonFields
  import opened JsonTyped
  import C = TlvCodec
  import T = Texts

  // ---------------------------------------------------------------- keys

  function Pairs(ms: Members): seq<(text, Json)> {
    match ms
    case NoMember => []
    case Member(key, value, next) => [(key, value)] + Pairs(next)
  }

  predicate Free(ps: seq<(text, Json)>, key: text) { forall i :: 0 <= i < |ps| ==> ps[i].0 != key }

  /** The object has the key once, with this value. */
  ghost predicate Has(ms: Members, key: text, j: Json) {
    exists a, b :: Pairs(ms) == a + [(key, j)] + b && Free(a, key) && Free(b, key)
  }

  lemma FreeMore(p: (text, Json), ps: seq<(text, Json)>, key: text)
    ensures Free([p] + ps, key) <==> p.0 != key && Free(ps, key)
  {
    var all := [p] + ps;
    assert all[0] == p && all[1..] == ps;
    if Free(all, key) {
      forall i | 0 <= i < |ps| ensures ps[i].0 != key { assert all[i + 1] == ps[i]; }
    }
  }

  lemma {:induction false} CountIs(ms: Members, key: text)
    ensures Count(ms, key) == 0 <==> Free(Pairs(ms), key)
    decreases ms
  {
    hide Free;
    if ms.Member? {
      CountIs(ms.next, key);
      FreeMore((ms.key, ms.value), Pairs(ms.next), key);
    } else {
      assert Free([], key) by { NothingFree(key); }
    }
  }

  lemma NothingFree(key: text)
    ensures Free([], key)
  {
  }

  lemma HasFirst(ms: Members, key: text, j: Json)
    requires ms.Member? && ms.key == key
    ensures Has(ms, key, j) <==> ms.value == j && Free(Pairs(ms.next), key)
  {
    hide Free;
    var p, qs := (ms.key, ms.value), Pairs(ms.next);
    if Has(ms, key, j) {
      var a, b :| Pairs(ms) == a + [(key, j)] + b && Free(a, key) && Free(b, key);
      FirstOf(p, qs, a, (key, j), b);
      if a != [] { FreeMore(p, a[1..], key); }
    }
    if ms.value == j && Free(qs, key) {
      NothingFree(key);
      var none: seq<(text, Json)> := [];
      assert Pairs(ms) == none + [(key, j)] + qs && Free(none, key);
    }
  }

  /** Where a sequence splits behind its first element. */
  lemma FirstOf<V>(p: V, qs: seq<V>, a: seq<V>, v: V, b: seq<V>)
    requires [p] + qs == a + [v] + b
    ensures a == [] ==> p == v && qs == b
    ensures a != [] ==> a == [p] + a[1..] && qs == a[1..] + [v] + b
  {
    var all := [p] + qs;
    assert all[0] == p && all[1..] == qs;
    if a == [] {
      assert (a + [v] + b)[0] == v && (a + [v] + b)[1..] == b;
    } else {
      assert (a + [v] + b)[0] == a[0] && (a + [v] + b)[1..] == a[1..] + [v] + b;
    }
  }

  lemma HasLater(ms: Members, key: text, j: Json)
    requires ms.Member? && ms.key != key
    ensures Has(ms, key, j) <==> Has(ms.next, key, j)
  {
    hide Free;
    var p, qs := (ms.key, ms.value), Pairs(ms.next);
    if Has(ms, key, j) {
      var a, b :| Pairs(ms) == a + [(key, j)] + b && Free(a, key) && Free(b, key);
      FirstOf(p, qs, a, (key, j), b);
      assert a != [];
      FreeMore(p, a[1..], key);
    }
    if Has(ms.next, key, j) {
      var a, b :| qs == a + [(key, j)] + b && Free(a, key) && Free(b, key);
      FreeMore(p, a, key);
      assert [p] + (a + [(key, j)] + b) == ([p] + a) + [(key, j)] + b;
    }
  }

  lemma {:induction false} GetExactly(ms: Members, key: text, j: Json)
    ensures Get(ms, key) == Some(j) <==> Has(ms, key, j)
    decreases ms
  {
    hide Free, Has;
    if ms.NoMember? {
      HasNothing(key, j);
    } else if ms.key == key {
      CountIs(ms.next, key);
      HasFirst(ms, key, j);
    } else {
      HasLater(ms, key, j);
      GetExactly(ms.next, key, j);
    }
  }

  lemma HasNothing(key: text, j: Json)
    ensures !Has(NoMember, key, j)
  {
  }

  // ---------------------------------------------------------------- values

  /** A number without sign, fraction and exponent, or a keyword. */
  predicate IsUnsigned(j: Json) {
    j.JNull? || j.JBool? || (j.JNumber? && j.n.dot == 0 && j.n.e == 0 && j.n.val != [] && j.n.val[0] != '-')
  }

  predicate IsSigned(j: Json) { j.JNumber? && j.n.dot == 0 && j.n.e == 0 && j.n.val != [] }

  /** The value can be read for the type. */
  predicate ValueFits(c: Context, s: Simple, j: Json) {
    match s
    case SUnsigned(_) => IsUnsigned(j)
    case SSigned(_) => IsSigned(j)
    case SEnum(t) => j.JString? && exists i :: 0 <= i < |c.names(t)| && c.names(t)[i].1 == j.val
    case STime => j.JNumber? && NumberForm(j.n) && j.n.e == 0 && Decimals(j.n) <= 9 && '1' <= j.n.val[0] <= '9'
    case SClock => j.JString? && T.FromHex(j.val).Some? && |T.FromHex(j.val).value| == 8
    case SText => j.JString?
    case SBinary => j.JString? && T.FromId(j.val).Some? && T.FromId(j.val).value != []
    case SOctets(k) => j.JString? && T.FromId(j.val).Some? && T.FromId(j.val).value != [] && (k > 0 ==> |T.FromId(j.val).value| == k)
    case STruth => IsUnsigned(j)
    case SCount => IsUnsigned(j)
  }

  lemma {:induction false} NameKnown(t: seq<(nat, text)>, s: text)
    ensures ValueOf(t, s).Some? <==> exists i :: 0 <= i < |t| && t[i].1 == s
    decreases |t|
  {
    if t != [] {
      NameKnown(t[1..], s);
      if i :| 0 <= i < |t| && t[i].1 == s { if i > 0 { assert t[1..][i - 1].1 == s; } }
      if i :| 0 <= i < |t[1..]| && t[1..][i].1 == s { assert t[i + 1].1 == s; }
    }
  }

  lemma {:induction false} Positive(v: text)
    requires v != [] && AllDigits(v, 0, |v|) && v[0] != '0'
    ensures Decimal(v) > 0
    decreases |v|
  {
    if |v| > 1 {
      assert v[..|v| - 1][0] == v[0];
      Positive(v[..|v| - 1]);
    }
  }

  /** The integer part is positive if and only if the number starts with another digit than 0. */
  lemma SecondsPositive(n: Number)
    requires NumberForm(n) && n.e == 0 && Decimals(n) <= 9
    ensures GetFrac(n, 9).Some? && (GetFrac(n, 9).value.integer > 0 <==> '1' <= n.val[0] <= '9')
  {
    hide Ten;
    var v := if n.dot == 0 then n.val else n.val[..n.dot];
    assert v[0] == n.val[0];
    if n.val[0] == '-' {
    } else if n.val[0] == '0' {
      assert v == "0" && v[..0] == [] && Digit(v[0]) == 0;
      assert Decimal(v) == 0;
    } else {
      assert forall i :: 0 <= i < |v| ==> v[i] == n.val[i];
      Positive(v);
    }
  }

  lemma ValueRead(c: Context, s: Simple, j: Json)
    ensures ReadSimple(c, s, j).Some? <==> ValueFits(c, s, j)
  {
    hide T.FromHex, T.FromId, NumberForm, GetFrac, ToInt64, ToUint64;
    match s
    case SEnum(t) => if j.JString? { NameKnown(c.names(t), j.val); }
    case STime => if j.JNumber? && NumberForm(j.n) { TimeRead(j.n); }
    case _ =>
  }

  lemma TimeRead(n: Number)
    requires NumberForm(n)
    ensures (GetFrac(n, 9).Some? && GetFrac(n, 9).value.integer > 0)
       <==> n.e == 0 && Decimals(n) <= 9 && '1' <= n.val[0] <= '9'
  {
    if n.e == 0 && Decimals(n) <= 9 { SecondsPositive(n); }
  }

  /** A decimal number is read as its value, up to the limit of 64 bits, cut to the width of the
      member; the keyword true counts as 1. */
  lemma UnsignedRead(c: Context, w: nat, j: Json)
    requires IsUnsigned(j) && (j.JNumber? ==> NumberForm(j.n))
    ensures var d := if j.JNumber? then Decimal(j.n.val) else if j == JBool(true) then 1 else 0;
      ReadSimple(c, SUnsigned(w), j) == Some([C.Num((if d < 0x1_0000_0000_0000_0000 then d else 0xffff_ffff_ffff_ffff) % Pow256(w))])
  {
    hide Pow256;
    if j.JNumber? && j.n.val[0] == '0' { ZeroIs(j.n); }
  }

  lemma ZeroIs(n: Number)
    requires NumberForm(n) && n.dot == 0 && n.e == 0 && n.val[0] == '0'
    ensures Decimal(n.val) == 0
  {
    assert n.val == "0" && n.val[..0] == [];
  }

  /** A signed number that the member can hold is read as it is. */
  lemma SignedRead(c: Context, w: nat, j: Json)
    requires IsSigned(j) && NumberForm(j.n)
    ensures var d := if j.n.val[0] == '-' then 0 - Decimal(j.n.val[1..]) else Decimal(j.n.val);
      -0x8000_0000_0000_0000 <= d < 0x8000_0000_0000_0000 && SignedRange(d, w) ==>
        ReadSimple(c, SSigned(w), j) == Some([C.Num(d)])
  {
    hide Pow256, NumberForm;
    if j.n.val[0] == '0' { ZeroIs(j.n); }
    var d := if j.n.val[0] == '-' then 0 - Decimal(j.n.val[1..]) else Decimal(j.n.val);
    if SignedRange(d, w) { CutBack(d, w); }
  }

  lemma CutBack(d: int, w: nat)
    requires SignedRange(d, w)
    ensures Cut(d, w) == d
  {
    hide Pow256;
    var p := Pow256(w);
    var k := d / p + if d < 0 then 1 else 0;
    assert d == p * (d / p) + d % p;
    assert d < 0 ==> p * k == d + p - d % p;
    MulBounds(p, k);
  }

  // ---------------------------------------------------------------- members of a table

  ghost predicate HasFit(c: Context, s: Simple, ms: Members, key: text) {
    exists j :: Has(ms, key, j) && ValueFits(c, s, j)
  }

  ghost predicate HasTruth(ms: Members, key: text) { Has(ms, key, JBool(true)) || Has(ms, key, JBool(false)) }

  ghost predicate TruthsFit(c: Context, ms: Members, lo: nat, hi: nat) {
    forall i: nat :: lo <= i < hi ==> HasTruth(ms, c.spell(i))
  }

  ghost predicate PartsFit(c: Context, parts: seq<Simple>, ms: Members, k: nat) {
    forall q :: 0 <= q < |parts| ==> HasFit(c, parts[q], ms, c.spell(k + q))
  }

  /** A member needs its value, flags one truth value each, a structure an object with all its parts. */
  ghost predicate KindFits(c: Context, kind: Kind, ms: Members, k: nat) {
    match kind
    case One(s) => HasFit(c, s, ms, c.spell(k))
    case Flags(bits, _) => TruthsFit(c, ms, k, k + |bits|)
    case Struct(parts) => exists inner :: Has(ms, c.spell(k), JObject(inner)) && PartsFit(c, parts, inner, 0)
  }

  /** The names of a table are numbered through. */
  ghost predicate FieldsFit(c: Context, fs: seq<Field>, ms: Members, k: nat) {
    forall j :: 0 <= j < |fs| ==> KindFits(c, fs[j].kind, ms, k + NamesOf(fs[..j]))
  }

  lemma FitRead(c: Context, s: Simple, ms: Members, key: text)
    ensures HasFit(c, s, ms, key) <==> Get(ms, key).Some? && ReadSimple(c, s, Get(ms, key).value).Some?
  {
    hide ReadSimple, ValueFits, Has;
    forall j ensures Get(ms, key) == Some(j) <==> Has(ms, key, j) { GetExactly(ms, key, j); }
    if Get(ms, key).Some? { ValueRead(c, s, Get(ms, key).value); }
    if HasFit(c, s, ms, key) {
      var j :| Has(ms, key, j) && ValueFits(c, s, j);
      assert Get(ms, key) == Some(j);
    }
  }

  lemma {:induction false} PartsRead(c: Context, parts: seq<Simple>, ms: Members, k: nat)
    ensures ReadParts(c, parts, ms, k).Some? <==> PartsFit(c, parts, ms, k)
    decreases |parts|
  {
    hide ReadSimple, HasFit, Get;
    if parts != [] {
      FitRead(c, parts[0], ms, c.spell(k));
      PartsRead(c, parts[1..], ms, k + 1);
      if PartsFit(c, parts, ms, k) {
        assert HasFit(c, parts[0], ms, c.spell(k + 0));
        forall q | 0 <= q < |parts[1..]| ensures HasFit(c, parts[1..][q], ms, c.spell(k + 1 + q)) {
          assert HasFit(c, parts[q + 1], ms, c.spell(k + (q + 1)));
        }
      }
      if HasFit(c, parts[0], ms, c.spell(k)) && PartsFit(c, parts[1..], ms, k + 1) {
        forall q | 0 <= q < |parts| ensures HasFit(c, parts[q], ms, c.spell(k + q)) {
          if q > 0 { assert HasFit(c, parts[1..][q - 1], ms, c.spell(k + 1 + (q - 1))); }
        }
      }
    }
  }

  lemma TruthRead(ms: Members, key: text)
    ensures HasTruth(ms, key) <==> Get(ms, key).Some? && Get(ms, key).value.JBool?
  {
    hide Has, Get;
    GetExactly(ms, key, JBool(true));
    GetExactly(ms, key, JBool(false));
  }

  lemma {:induction false} FlagsRead(c: Context, bits: seq<nat>, ms: Members, k: nat, acc: nat)
    ensures ReadFlags(c, bits, ms, k, acc).Some? <==> TruthsFit(c, ms, k, k + |bits|)
    decreases |bits|
  {
    hide HasTruth, Get, BitOr;
    if bits != [] {
      TruthRead(ms, c.spell(k));
      var j := Get(ms, c.spell(k));
      if j.Some? && j.value.JBool? { FlagsRead(c, bits[1..], ms, k + 1, if j.value.b then BitOr(acc, Two(bits[0])) else acc); }
      assert TruthsFit(c, ms, k, k + |bits|) <==> HasTruth(ms, c.spell(k)) && TruthsFit(c, ms, k + 1, k + |bits|);
    }
  }

  lemma KindRead(c: Context, kind: Kind, ms: Members, k: nat)
    ensures ReadKind(c, kind, ms, k).Some? <==> KindFits(c, kind, ms, k)
  {
    hide Has, Get, ReadSimple, ReadParts, PartsFit, ReadFlags, HasFit, HasTruth;
    match kind
    case One(s) => FitRead(c, s, ms, c.spell(k));
    case Flags(bits, _) => FlagsRead(c, bits, ms, k, 0);
    case Struct(parts) =>
      var key := c.spell(k);
      forall j ensures Get(ms, key) == Some(j) <==> Has(ms, key, j) { GetExactly(ms, key, j); }
      forall inner ensures ReadParts(c, parts, inner, 0).Some? <==> PartsFit(c, parts, inner, 0) { PartsRead(c, parts, inner, 0); }
      if Get(ms, key).Some? && Get(ms, key).value.JObject? {
        var inner := Get(ms, key).value.members;
        assert Has(ms, key, JObject(inner));
      }
  }

  lemma {:induction false} FieldsRead(c: Context, fs: seq<Field>, ms: Members, k: nat, out: seq<Val>)
    ensures ReadFields(c, fs, ms, k, out).Some? <==> FieldsFit(c, fs, ms, k)
    decreases |fs|
  {
    hide ReadKind, KindFits, Put;
    if fs != [] {
      KindRead(c, fs[0].kind, ms, k);
      var n := NameCount(fs[0].kind);
      var v := ReadKind(c, fs[0].kind, ms, k);
      FieldsRead(c, fs[1..], ms, k + n, if v.Some? then Put(out, fs[0].at, v.value) else out);
      assert fs[..0] == [];
      forall j | 0 < j < |fs| ensures NamesOf(fs[..j]) == n + NamesOf(fs[1..][..j - 1]) {
        assert fs[..j][1..] == fs[1..][..j - 1];
      }
      if FieldsFit(c, fs, ms, k) {
        assert KindFits(c, fs[0].kind, ms, k + NamesOf(fs[..0]));
        forall j | 0 <= j < |fs[1..]| ensures KindFits(c, fs[1..][j].kind, ms, k + n + NamesOf(fs[1..][..j])) {
          assert KindFits(c, fs[j + 1].kind, ms, k + NamesOf(fs[..j + 1]));
        }
      }
      if KindFits(c, fs[0].kind, ms, k) && FieldsFit(c, fs[1..], ms, k + n) {
        forall j | 0 <= j < |fs| ensures KindFits(c, fs[j].kind, ms, k + NamesOf(fs[..j])) {
          if j > 0 { assert KindFits(c, fs[1..][j - 1].kind, ms, k + n + NamesOf(fs[1..][..j - 1])); }
        }
      }
    }
  }

  // ---------------------------------------------------------------- lists

  function ElementsIn(es: Elements): seq<Json> {
    match es
    case NoElement => []
    case Element(j, next) => [j] + ElementsIn(next)
  }

  /** An element of a list: an object with all members of a record, or a clock identity. */
  ghost predicate ElementFits(c: Context, l: Lists, j: Json) {
    if l.Records? then j.JObject? && FieldsFit(c, l.rec, j.members, 0)
    else j.JString? && T.FromHex(j.val).Some? && |T.FromHex(j.val).value| == 8
  }

  ghost predicate AllFit(c: Context, l: Lists, js: seq<Json>) { forall i :: 0 <= i < |js| ==> ElementFits(c, l, js[i]) }

  ghost predicate ListFits(c: Context, l: Lists, ms: Members, key: text) {
    l.NoList? || exists es :: Has(ms, key, JArray(es)) && AllFit(c, l, ElementsIn(es))
  }

  lemma ElementRead(c: Context, l: Lists, j: Json, blank: seq<Val>)
    requires !l.NoList?
    ensures ReadRecord(c, l, j, blank).Some? <==> ElementFits(c, l, j)
  {
    hide ReadFields, FieldsFit, T.FromHex;
    if l.Records? && j.JObject? { FieldsRead(c, l.rec, j.members, 0, blank); }
  }

  lemma {:induction false} ElementsRead(c: Context, l: Lists, es: Elements, blank: seq<Val>)
    requires !l.NoList?
    ensures ReadRecords(c, l, es, blank).Some? <==> AllFit(c, l, ElementsIn(es))
    decreases es
  {
    hide ReadRecord, ElementFits;
    if es.Element? {
      var all, more := ElementsIn(es), ElementsIn(es.next);
      ElementRead(c, l, es.value, blank);
      ElementsRead(c, l, es.next, blank);
      assert all[0] == es.value && forall i :: 0 < i < |all| ==> all[i] == more[i - 1];
      if AllFit(c, l, all) {
        forall i | 0 <= i < |more| ensures ElementFits(c, l, more[i]) { assert more[i] == all[i + 1]; }
      }
    }
  }

  lemma ListRead(c: Context, l: Lists, ms: Members, k: nat, blank: seq<Val>)
    ensures ReadList(c, l, ms, k, blank).Some? <==> ListFits(c, l, ms, c.spell(k))
  {
    hide Has, Get, ReadRecords, ElementFits;
    if !l.NoList? {
      var key := c.spell(k);
      forall j ensures Get(ms, key) == Some(j) <==> Has(ms, key, j) { GetExactly(ms, key, j); }
      forall es ensures ReadRecords(c, l, es, blank).Some?
        <==> AllFit(c, l, ElementsIn(es))
      {
        ElementsRead(c, l, es, blank);
      }
      if Get(ms, key).Some? && Get(ms, key).value.JArray? {
        var es := Get(ms, key).value.elements;
        assert Has(ms, key, JArray(es));
      }
    }
  }

  /** The reader accepts an object if and only if it has every name of the table, once, with a
      value that can be read for its type, and the list with elements that can all be read. */
  lemma ReaderExactly(c: Context, sc: Schema, ms: Members, blank: seq<Val>, blankRec: seq<Val>)
    ensures ReadDoc(c, sc, ms, blank, blankRec).Some?
       <==> FieldsFit(c, sc.fields, ms, 0) && ListFits(c, sc.list, ms, c.spell(NamesOf(sc.fields)))
  {
    hide ReadFields, ReadList, FieldsFit, ListFits;
    FieldsRead(c, sc.fields, ms, 0, blank);
    ListRead(c, sc.list, ms, NamesOf(sc.fields), blankRec);
  }
}
