/**
 The JSON form of a TLV. The source has one table of members per TLV that both writes and
 reads it; here the table is data. Member names only matter in being different: the k-th
 name of an object is `spell(k)`. The names of enumerators come from tables.
 */
module JsonFields {
  import opened Octets
  import opened JsonText
  import opened JsonNumber
  import opened JsonTree
  import opened JsonWriting
  import opened JsonDecimal
  import C = TlvCodec
  import T = Texts

  type Val = C.Val

  /** A member that is written as one JSON value. */
  datatype Simple =
    | SUnsigned(width: nat)
    | SSigned(width: nat)
    | SEnum(table: nat)
    | STime                  // seconds and nanoseconds
    | SClock                 // a clock identity
    | SText
    | SBinary
    | SOctets(count: nat)
    | STruth                 // an octet that is written as true or false
    | SCount                 // the length of a list or record, not read back

  /** Flags become one value per bit, structures an object. The flags are in one octet, or in
      the first of `size` octets. */
  datatype Kind = One(s: Simple) | Flags(bits: seq<nat>, size: nat) | Struct(parts: seq<Simple>)

  datatype Field = Field(at: nat, kind: Kind)

  datatype Context = Context(spell: nat -> text, names: nat -> seq<(nat, text)>, count: seq<Val> -> nat)

  function Width(s: Simple): nat { if s.STime? then 2 else if s.SCount? then 0 else 1 }

  function PartsWidth(parts: seq<Simple>): nat {
    if parts == [] then 0 else Width(parts[0]) + PartsWidth(parts[1..])
  }

  function KindWidth(k: Kind): nat {
    match k
    case One(s) => Width(s)
    case Flags(_, _) => 1
    case Struct(parts) => PartsWidth(parts)
  }

  // ---------------------------------------------------------------- names of enumerators

  function NameOf(t: seq<(nat, text)>, v: int): Option<text> {
    if t == [] then None else if t[0].0 == v then Some(t[0].1) else NameOf(t[1..], v)
  }

  /** The search of the reader: the first enumerator with the name. */
  function ValueOf(t: seq<(nat, text)>, s: text): Option<nat> {
    if t == [] then None else if t[0].1 == s then Some(t[0].0) else ValueOf(t[1..], s)
  }

  predicate DistinctNames(t: seq<(nat, text)>) {
    forall i, k :: 0 <= i < k < |t| ==> t[i].1 != t[k].1
  }

  lemma {:induction false} NameBack(t: seq<(nat, text)>, v: int)
    requires DistinctNames(t) && NameOf(t, v).Some?
    ensures ValueOf(t, NameOf(t, v).value) == Some(v)
    ensures exists i :: 0 <= i < |t| && t[i].1 == NameOf(t, v).value
    decreases |t|
  {
    if t[0].0 != v {
      NameBack(t[1..], v);
      var s := NameOf(t, v).value;
      var i :| 0 <= i < |t[1..]| && t[1..][i].1 == s;
      assert t[i + 1].1 == s;
      assert t[0].1 != s;
    }
  }

  // ---------------------------------------------------------------- writing

  function Chars(b: seq<octet>): text { seq(|b|, i requires 0 <= i < |b| => b[i] as char) }

  function OctetsOf(s: text): seq<octet> { seq(|s|, i requires 0 <= i < |s| => s[i] as int % 256) }

  /** The value can be written, and is not changed by it. */
  ghost predicate SimpleOk(c: Context, s: Simple, vs: seq<Val>, at: nat) {
    && at + Width(s) <= |vs|
    && match s
       case SUnsigned(w) => vs[at].Num? && 0 <= vs[at].n < Pow256(w) && w <= 8
       case SSigned(w) => vs[at].Num? && SignedRange(vs[at].n, w) && w <= 8
       case SEnum(t) => vs[at].Num? && NameOf(c.names(t), vs[at].n).Some?
       case STime => vs[at].Num? && vs[at + 1].Num? && 0 < vs[at].n < Pow256(6) && 0 <= vs[at + 1].n < 1_000_000_000
       case SClock => vs[at].Bytes? && |vs[at].b| == 8
       case SText => vs[at].Bytes? && Unescaped(Chars(vs[at].b))
       case SBinary => vs[at].Bytes? && vs[at].b != []
       case SOctets(k) => vs[at].Bytes? && |vs[at].b| == k > 0
       case STruth => vs[at] == C.Num(0) || vs[at] == C.Num(1)
       case SCount => true
  }

  function Num(v: Val): int { if v.Num? then v.n else 0 }

  function Nat(v: Val): nat { if v.Num? && v.n >= 0 then v.n else 0 }

  function Oct(v: Val): seq<octet> { if v.Bytes? then v.b else [] }

  function ClockOf(v: Val): text { if v.Bytes? && |v.b| == 8 then ClockText(v.b) else "" }

  function SimpleNode(c: Context, s: Simple, vs: seq<Val>, at: nat): Node
    requires at + Width(s) <= |vs|
  {
    match s
    case SUnsigned(_) => Raw(NumberOf(Num(vs[at])))
    case SSigned(_) => Raw(NumberOf(Num(vs[at])))
    case SEnum(t) => var name := NameOf(c.names(t), Num(vs[at])); Quoted(if name.Some? then name.value else "")
    case STime => Raw(TimeNumber(Nat(vs[at]), Nat(vs[at + 1])))
    case SClock => Quoted(ClockOf(vs[at]))
    case SText => Quoted(Chars(Oct(vs[at])))
    case SBinary => Quoted(T.ToId(Oct(vs[at]), ':'))
    case SOctets(_) => Quoted(T.ToId(Oct(vs[at]), ':'))
    case STruth => Truth(Num(vs[at]) != 0)
    case SCount => Raw(NumberOf(c.count(vs)))
  }

  // ---------------------------------------------------------------- reading

  /** `getUint64` in its flexible form: keywords count as numbers. */
  function ReadUint(j: Json): Option<nat> {
    match j
    case JNumber(n) => GetUint64(n)
    case JBool(b) => Some(if b then 1 else 0)
    case JNull => Some(0)
    case _ => None
  }

  /** The values of the slots of a member. Numbers are cut to the width of their type. */
  function ReadSimple(c: Context, s: Simple, j: Json): Option<seq<Val>> {
    match s
    case SUnsigned(w) => var n := ReadUint(j); if n.None? then None else Some([C.Num(n.value % Pow256(w))])
    case SSigned(w) =>
      if !j.JNumber? then None
      else var n := GetInt64(j.n); if n.None? then None else Some([C.Num(Cut(n.value, w))])
    case SEnum(t) =>
      if !j.JString? then None
      else var v := ValueOf(c.names(t), j.val); if v.None? then None else Some([C.Num(v.value)])
    case STime =>
      if !j.JNumber? || !NumberForm(j.n) then None
      else
        var f := GetFrac(j.n, 9);
        if f.None? || f.value.integer <= 0 then None
        else Some([C.Num(f.value.integer), C.Num(f.value.fraction % Pow256(4))])
    case SClock => ReadOctets(j, true, 8)
    case SText => if j.JString? then Some([C.Bytes(OctetsOf(j.val))]) else None
    case SBinary => ReadOctets(j, false, 0)
    case SOctets(k) => ReadOctets(j, false, k)
    case STruth => var n := ReadUint(j); if n.None? then None else Some([C.Num(n.value % 256)])
    case SCount => if ReadUint(j).None? then None else Some([])
  }

  /** The cast to a signed type of `w` octets. */
  function Cut(v: int, w: nat): int { ToSigned(v % Pow256(w), w) }

  /** A clock identity, or octets of a length, 0 for any length but that. */
  function ReadOctets(j: Json, clock: bool, k: nat): Option<seq<Val>> {
    if !j.JString? then None
    else
      var b := if clock then T.FromHex(j.val) else T.FromId(j.val);
      if b.None? || b.value == [] || (k > 0 && |b.value| != k) then None else Some([C.Bytes(b.value)])
  }

  lemma CharsBack(b: seq<octet>)
    ensures OctetsOf(Chars(b)) == b
  {
  }

  lemma CutBack(v: int, w: nat)
    requires SignedRange(v, w)
    ensures Cut(v, w) == v
  {
    var p := Pow256(w);
    if v < 0 { ModIs(v, p, -1, v + p); } else { ModIs(v, p, 0, v); }
  }

  lemma ModIs(v: int, m: int, q: int, r: int)
    requires m > 0 && v == m * q + r && 0 <= r < m
    ensures v % m == r
  {
    var d := v / m - q;
    assert v == m * (v / m) + v % m;
    assert m * d == r - v % m;
    MulBounds(m, d);
  }

  lemma {:induction false} Pow256Grows(a: nat, b: nat)
    requires a <= b
    ensures Pow256(a) <= Pow256(b)
    decreases b
  {
    if a < b { Pow256Grows(a, b - 1); }
  }

  /** Every value that can be written is read back. */
  lemma SimpleBack(c: Context, s: Simple, vs: seq<Val>, at: nat)
    requires SimpleOk(c, s, vs, at) && forall t :: DistinctNames(c.names(t))
    requires s.SCount? ==> c.count(vs) <= UINT64_MAX
    ensures ReadSimple(c, s, TreeOf(SimpleNode(c, s, vs, at))) == Some(vs[at..at + Width(s)])
  {
    hide GetUint64, GetInt64, GetFrac, NumberOf, TimeNumber, NumberForm, DistinctNames, NameOf, ValueOf, Cut, ClockText;
    hide T.ToId, T.FromId, T.FromHex;
    C.Pow256Values();
    assert Width(s) == 1 ==> vs[at..at + 1] == [vs[at]];
    match s
    case SUnsigned(w) => Pow256Grows(w, 8); UintBack(vs[at].n);
    case SSigned(w) => Pow256Grows(w, 8); IntBack(vs[at].n); CutBack(vs[at].n, w);
    case SEnum(t) => NameBack(c.names(t), vs[at].n);
    case STime =>
      TimeBack(vs[at].n, vs[at + 1].n);
      assert vs[at..at + 2] == [vs[at], vs[at + 1]];
    case SClock => ClockBack(vs[at].b);
    case SText => CharsBack(vs[at].b);
    case SBinary => T.IdRoundTrip(vs[at].b, ':');
    case SOctets(_) => T.IdRoundTrip(vs[at].b, ':');
    case STruth =>
    case SCount =>
      UintBack(c.count(vs));
      assert vs[at..at] == [];
  }

  /** What the C++ type holds, of the types whose values do not all come back. */
  predicate OfType(s: Simple, vs: seq<Val>, at: nat) {
    && at + Width(s) <= |vs|
    && match s
       case SEnum(_) => vs[at].Num?
       case STime => vs[at].Num? && vs[at + 1].Num? && 0 <= vs[at].n < Pow256(6) && 0 <= vs[at + 1].n < 1_000_000_000
       case SBinary => vs[at].Bytes?
       case STruth => vs[at].Num? && 0 <= vs[at].n < 256
       case _ => false
  }

  /** An enumerator comes back if and only if it has a name, a time if it has at least one
      second, an address if it has an octet, and a truth value if it is zero or one. */
  lemma SimpleExactly(c: Context, s: Simple, vs: seq<Val>, at: nat)
    requires OfType(s, vs, at) && forall t :: DistinctNames(c.names(t))
    ensures ReadSimple(c, s, TreeOf(SimpleNode(c, s, vs, at))) == Some(vs[at..at + Width(s)]) <==> SimpleOk(c, s, vs, at)
  {
    hide GetFrac, TimeNumber, NumberForm, DistinctNames, NameOf, ValueOf;
    C.Pow256Values();
    var back := ReadSimple(c, s, TreeOf(SimpleNode(c, s, vs, at)));
    if SimpleOk(c, s, vs, at) {
      SimpleBack(c, s, vs, at);
    } else {
      assert back == Some(vs[at..at + Width(s)]) ==> back.value[0] == vs[at];
      match s
      case SEnum(t) => Nameless(c.names(t), vs[at].n, "");
      case STime => TimeBack(vs[at].n, vs[at + 1].n);
      case SBinary => assert T.ToId([], ':') == "";
      case STruth =>
    }
  }

  /** No text stands for an enumerator without a name. */
  lemma {:induction false} Nameless(t: seq<(nat, text)>, v: int, s: text)
    requires NameOf(t, v).None?
    ensures ValueOf(t, s) != Some(v)
    decreases |t|
  {
    if t != [] { Nameless(t[1..], v, s); }
  }

  // ---------------------------------------------------------------- objects

  function Count(ms: Members, key: text): nat {
    match ms
    case NoMember => 0
    case Member(k, _, next) => (if k == key then 1 else 0) + Count(next, key)
  }

  function Find(ms: Members, key: text): Json {
    match ms
    case NoMember => JNull
    case Member(k, v, next) => if k == key then v else Find(next, key)
  }

  /** `getVal` and its siblings: a key has to be there exactly once. */
  function Get(ms: Members, key: text): Option<Json> {
    if Count(ms, key) == 1 then Some(Find(ms, key)) else None
  }

  lemma {:induction false} InsertCount(ms: Members, k: text, v: Json, key: text)
    ensures Count(Insert(ms, k, v), key) == Count(ms, key) + if k == key then 1 else 0
    ensures k != key ==> Find(Insert(ms, k, v), key) == Find(ms, key)
    ensures k == key && Count(ms, key) == 0 ==> Find(Insert(ms, k, v), key) == v
    decreases ms
  {
    hide Less;
    match ms
    case NoMember => assert Count(NoMember, key) == 0;
    case Member(a, b, next) => InsertCount(next, k, v, key);
  }

  /** The names of the items are `spell(k)`, `spell(k + 1)` and so on. */
  predicate Spelled(c: Context, items: Items, k: nat) {
    items.Item? ==> items.name == c.spell(k) && Spelled(c, items.next, k + 1)
  }

  ghost predicate Injective(c: Context) { forall i, k :: c.spell(i) == c.spell(k) ==> i == k }

  /** Every item is found in the members of the object. */
  ghost predicate Holds(items: Items, ms: Members) {
    items.Item? ==> Get(ms, items.name) == Some(TreeOf(items.node)) && Holds(items.next, ms)
  }

  lemma {:induction false} OthersStay(c: Context, items: Items, k: nat, acc: Members, i: nat)
    requires Spelled(c, items, k) && Injective(c) && i < k
    ensures Get(MembersOf(items, acc), c.spell(i)) == Get(acc, c.spell(i))
    decreases items
  {
    if items.Item? {
      InsertCount(acc, items.name, TreeOf(items.node), c.spell(i));
      OthersStay(c, items.next, k + 1, Insert(acc, items.name, TreeOf(items.node)), i);
    }
  }

  ghost predicate FreeFrom(c: Context, acc: Members, k: nat) { forall i :: i >= k ==> Count(acc, c.spell(i)) == 0 }

  lemma {:induction false} AllHeld(c: Context, items: Items, k: nat, acc: Members)
    requires Spelled(c, items, k) && Injective(c) && FreeFrom(c, acc, k)
    ensures Holds(items, MembersOf(items, acc))
    decreases items
  {
    if items.Item? {
      var more := Insert(acc, items.name, TreeOf(items.node));
      InsertCount(acc, items.name, TreeOf(items.node), c.spell(k));
      OthersStay(c, items.next, k + 1, more, k);
      forall i | i >= k + 1 ensures Count(more, c.spell(i)) == 0 {
        InsertCount(acc, items.name, TreeOf(items.node), c.spell(i));
      }
      AllHeld(c, items.next, k + 1, more);
    }
  }

  // ---------------------------------------------------------------- members of a structure

  function PartItems(c: Context, parts: seq<Simple>, vs: seq<Val>, at: nat, k: nat): Items
    requires at + PartsWidth(parts) <= |vs|
    decreases |parts|
  {
    if parts == [] then NoItem
    else Item(c.spell(k), SimpleNode(c, parts[0], vs, at), PartItems(c, parts[1..], vs, at + Width(parts[0]), k + 1))
  }

  function ReadParts(c: Context, parts: seq<Simple>, ms: Members, k: nat): Option<seq<Val>>
    decreases |parts|
  {
    if parts == [] then Some([])
    else
      var j := Get(ms, c.spell(k));
      if j.None? then None
      else
        var v := ReadSimple(c, parts[0], j.value);
        if v.None? then None
        else
          var more := ReadParts(c, parts[1..], ms, k + 1);
          if more.None? then None else Some(v.value + more.value)
  }

  ghost predicate PartsOk(c: Context, parts: seq<Simple>, vs: seq<Val>, at: nat)
    decreases |parts|
  {
    parts == [] || (SimpleOk(c, parts[0], vs, at) && c.count(vs) <= UINT64_MAX && PartsOk(c, parts[1..], vs, at + Width(parts[0])))
  }

  ghost predicate ContextOk(c: Context) {
    && Injective(c)
    && (forall t :: DistinctNames(c.names(t)))
    && (forall k :: Unescaped(c.spell(k)))
    && (forall t, i :: 0 <= i < |c.names(t)| ==> Unescaped(c.names(t)[i].1))
  }

  lemma {:induction false} PartsBack(c: Context, parts: seq<Simple>, vs: seq<Val>, at: nat, k: nat, ms: Members)
    requires at + PartsWidth(parts) <= |vs| && PartsOk(c, parts, vs, at) && ContextOk(c)
    requires Holds(PartItems(c, parts, vs, at, k), ms)
    ensures ReadParts(c, parts, ms, k) == Some(vs[at..at + PartsWidth(parts)])
    decreases |parts|
  {
    hide SimpleOk, ReadSimple, SimpleNode, Width, Injective, DistinctNames, Unescaped;
    if parts == [] {
      assert vs[at..at] == [];
    } else {
      var w := Width(parts[0]);
      SimpleBack(c, parts[0], vs, at);
      PartsBack(c, parts[1..], vs, at + w, k + 1, ms);
      Slices(vs, at, w, PartsWidth(parts[1..]));
    }
  }

  lemma Slices<V>(s: seq<V>, at: nat, m: nat, n: nat)
    requires at + m + n <= |s|
    ensures s[at..at + m] + s[at + m..at + m + n] == s[at..at + (m + n)]
  {
  }

  lemma {:induction false} PartsSpelled(c: Context, parts: seq<Simple>, vs: seq<Val>, at: nat, k: nat)
    requires at + PartsWidth(parts) <= |vs|
    ensures Spelled(c, PartItems(c, parts, vs, at, k), k)
    decreases |parts|
  {
    if parts != [] { PartsSpelled(c, parts[1..], vs, at + Width(parts[0]), k + 1); }
  }

  // ---------------------------------------------------------------- flags

  predicate Ascending(bits: seq<nat>) { forall i, k :: 0 <= i < k < |bits| ==> bits[i] < bits[k] }

  function FlagNum(v: Val): nat { if v.Bytes? then (if v.b == [] then 0 else v.b[0]) else Nat(v) }

  function FlagVal(n: nat, size: nat): Val {
    if size == 0 then C.Num(n) else C.Bytes([n % 256] + seq(size - 1, _ => 0))
  }

  predicate BitSet(n: nat, bit: nat) { n / Two(bit) % 2 == 1 }

  /** The bits of a number that have a name. */
  function NamedBits(bits: seq<nat>, n: nat): nat {
    if bits == [] then 0 else (if BitSet(n, bits[0]) then Two(bits[0]) else 0) + NamedBits(bits[1..], n)
  }

  function FlagItems(c: Context, bits: seq<nat>, n: nat, k: nat, tail: Items): Items
    decreases |bits|
  {
    if bits == [] then tail else Item(c.spell(k), Truth(BitSet(n, bits[0])), FlagItems(c, bits[1..], n, k + 1, tail))
  }

  /** `procFlag` for every bit, from zero on. */
  function ReadFlags(c: Context, bits: seq<nat>, ms: Members, k: nat, acc: nat): Option<nat>
    decreases |bits|
  {
    if bits == [] then Some(acc)
    else
      var j := Get(ms, c.spell(k));
      if j.None? || !j.value.JBool? then None
      else ReadFlags(c, bits[1..], ms, k + 1, if j.value.b then BitOr(acc, Two(bits[0])) else acc)
  }

  lemma {:induction false} OrBit(x: nat, k: nat)
    requires x < Two(k)
    ensures BitOr(x, Two(k)) == x + Two(k)
    decreases k
  {
    if k == 0 {
      assert BitOr(0, 1) == 1;
    } else {
      StepBits(x, Two(k));
      OrBit(x / 2, k - 1);
    }
  }

  lemma {:induction false} TwoGrows(a: nat, b: nat)
    requires a <= b
    ensures Two(a) <= Two(b)
    decreases b
  {
    if a < b { TwoGrows(a, b - 1); }
  }

  lemma {:induction false} FlagsBack(c: Context, bits: seq<nat>, n: nat, k: nat, tail: Items, ms: Members, acc: nat)
    requires Ascending(bits) && Holds(FlagItems(c, bits, n, k, tail), ms) && (bits != [] ==> acc < Two(bits[0]))
    ensures ReadFlags(c, bits, ms, k, acc) == Some(acc + NamedBits(bits, n)) && Holds(tail, ms)
    decreases |bits|
  {
    hide BitSet, BitOr;
    if bits != [] {
      OrBit(acc, bits[0]);
      var next := if BitSet(n, bits[0]) then acc + Two(bits[0]) else acc;
      if |bits| > 1 { TwoGrows(bits[0] + 1, bits[1]); }
      FlagsBack(c, bits[1..], n, k + 1, tail, ms, next);
    }
  }

  // ---------------------------------------------------------------- all members of an object

  function NameCount(k: Kind): nat { if k.Flags? then |k.bits| else 1 }

  ghost predicate FieldOk(c: Context, f: Field, vs: seq<Val>) {
    && f.at + KindWidth(f.kind) <= |vs| && c.count(vs) <= UINT64_MAX
    && match f.kind
       case One(s) => SimpleOk(c, s, vs, f.at)
       case Flags(bits, size) => Ascending(bits) && vs[f.at] == FlagVal(NamedBits(bits, FlagNum(vs[f.at])), size)
       case Struct(parts) => PartsOk(c, parts, vs, f.at)
  }

  ghost predicate FieldsOk(c: Context, fs: seq<Field>, vs: seq<Val>) {
    forall i :: 0 <= i < |fs| ==> FieldOk(c, fs[i], vs)
  }

  function KindItems(c: Context, f: Field, vs: seq<Val>, k: nat, tail: Items): Items
    requires f.at + KindWidth(f.kind) <= |vs|
  {
    match f.kind
    case One(s) => Item(c.spell(k), SimpleNode(c, s, vs, f.at), tail)
    case Flags(bits, _) => FlagItems(c, bits, FlagNum(vs[f.at]), k, tail)
    case Struct(parts) => Item(c.spell(k), Object(PartItems(c, parts, vs, f.at, 0)), tail)
  }

  predicate Within(fs: seq<Field>, n: nat) { forall i :: 0 <= i < |fs| ==> fs[i].at + KindWidth(fs[i].kind) <= n }

  /** The calls of a `proc_` function, and those behind them. */
  function ItemsOf(c: Context, fs: seq<Field>, vs: seq<Val>, k: nat, tail: Items): Items
    requires Within(fs, |vs|)
    decreases |fs|
  {
    if fs == [] then tail
    else KindItems(c, fs[0], vs, k, ItemsOf(c, fs[1..], vs, k + NameCount(fs[0].kind), tail))
  }

  function ReadKind(c: Context, kind: Kind, ms: Members, k: nat): Option<seq<Val>> {
    match kind
    case One(s) => var j := Get(ms, c.spell(k)); if j.None? then None else ReadSimple(c, s, j.value)
    case Flags(bits, size) => var n := ReadFlags(c, bits, ms, k, 0); if n.None? then None else Some([FlagVal(n.value, size)])
    case Struct(parts) =>
      var j := Get(ms, c.spell(k));
      if j.None? || !j.value.JObject? then None else ReadParts(c, parts, j.value.members, 0)
  }

  /** The values replace those of an empty structure. */
  function Put(out: seq<Val>, at: nat, vs: seq<Val>): (r: seq<Val>)
    ensures |r| == |out|
  {
    if at + |vs| <= |out| then out[..at] + vs + out[at + |vs|..] else out
  }

  function ReadFields(c: Context, fs: seq<Field>, ms: Members, k: nat, out: seq<Val>): Option<seq<Val>>
    decreases |fs|
  {
    if fs == [] then Some(out)
    else
      var v := ReadKind(c, fs[0].kind, ms, k);
      if v.None? then None
      else ReadFields(c, fs[1..], ms, k + NameCount(fs[0].kind), Put(out, fs[0].at, v.value))
  }

  lemma KindBack(c: Context, f: Field, vs: seq<Val>, k: nat, tail: Items, ms: Members)
    requires FieldOk(c, f, vs) && ContextOk(c) && Holds(KindItems(c, f, vs, k, tail), ms)
    ensures ReadKind(c, f.kind, ms, k) == Some(vs[f.at..f.at + KindWidth(f.kind)]) && Holds(tail, ms)
  {
    hide SimpleOk, ReadSimple, SimpleNode, PartsOk, Get, Injective, FlagNum, FlagVal, NamedBits;
    match f.kind
    case One(s) => SimpleBack(c, s, vs, f.at);
    case Flags(bits, _) =>
      assert Two(0) == 1;
      if bits != [] { TwoGrows(0, bits[0]); }
      FlagsBack(c, bits, FlagNum(vs[f.at]), k, tail, ms, 0);
      assert vs[f.at..f.at + 1] == [vs[f.at]];
    case Struct(parts) =>
      var items := PartItems(c, parts, vs, f.at, 0);
      PartsSpelled(c, parts, vs, f.at, 0);
      AllHeld(c, items, 0, NoMember);
      PartsBack(c, parts, vs, f.at, 0, MembersOf(items, NoMember));
  }

  /** The members that a table covers are taken over, the others stay. */
  function Merged(fs: seq<Field>, vs: seq<Val>, out: seq<Val>): (r: seq<Val>)
    requires Within(fs, |vs|) && |out| == |vs|
    ensures |r| == |vs|
    decreases |fs|
  {
    if fs == [] then out
    else
      var at := fs[0].at;
      Merged(fs[1..], vs, Put(out, at, vs[at..at + KindWidth(fs[0].kind)]))
  }

  lemma {:induction false} FieldsBack(c: Context, fs: seq<Field>, vs: seq<Val>, k: nat, tail: Items, ms: Members, out: seq<Val>)
    requires Within(fs, |vs|) && FieldsOk(c, fs, vs) && ContextOk(c) && |out| == |vs|
    requires Holds(ItemsOf(c, fs, vs, k, tail), ms)
    ensures ReadFields(c, fs, ms, k, out) == Some(Merged(fs, vs, out)) && Holds(tail, ms)
    decreases |fs|
  {
    hide FieldOk, ContextOk, ReadKind, KindItems, KindWidth;
    if fs != [] {
      var f, more := fs[0], ItemsOf(c, fs[1..], vs, k + NameCount(fs[0].kind), tail);
      assert FieldOk(c, f, vs);
      KindBack(c, f, vs, k, more, ms);
      FieldsBack(c, fs[1..], vs, k + NameCount(f.kind), tail, ms, Put(out, f.at, vs[f.at..f.at + KindWidth(f.kind)]));
    }
  }

  predicate Covered(fs: seq<Field>, i: nat) {
    exists f :: f in fs && f.at <= i < f.at + KindWidth(f.kind)
  }

  lemma {:induction false} MergedAt(fs: seq<Field>, vs: seq<Val>, out: seq<Val>, i: nat)
    requires Within(fs, |vs|) && |out| == |vs| && i < |vs|
    ensures Merged(fs, vs, out)[i] == if Covered(fs, i) then vs[i] else out[i]
    decreases |fs|
  {
    hide KindWidth, Covered, Put;
    if fs == [] {
      NoneCovered(i);
    } else {
      var f := fs[0];
      PutAt(out, f.at, KindWidth(f.kind), vs, i);
      CoveredStep(fs, i);
      MergedAt(fs[1..], vs, Put(out, f.at, vs[f.at..f.at + KindWidth(f.kind)]), i);
    }
  }

  lemma NoneCovered(i: nat)
    ensures !Covered([], i)
  {
  }

  lemma PutAt(out: seq<Val>, at: nat, w: nat, vs: seq<Val>, i: nat)
    requires at + w <= |vs| == |out| && i < |vs|
    ensures Put(out, at, vs[at..at + w])[i] == if at <= i < at + w then vs[i] else out[i]
  {
  }

  lemma CoveredStep(fs: seq<Field>, i: nat)
    requires fs != []
    ensures Covered(fs, i) <==> (fs[0].at <= i < fs[0].at + KindWidth(fs[0].kind)) || Covered(fs[1..], i)
  {
    hide KindWidth;
    assert fs == [fs[0]] + fs[1..];
    assert fs[0] in fs && forall f :: f in fs[1..] ==> f in fs;
  }

  /** An empty structure and the structure differ only where the table covers them. */
  predicate Fills(fs: seq<Field>, vs: seq<Val>, blank: seq<Val>) {
    |blank| == |vs| && forall i :: 0 <= i < |vs| ==> Covered(fs, i) || blank[i] == vs[i]
  }

  lemma MergedAll(fs: seq<Field>, vs: seq<Val>, blank: seq<Val>)
    requires Within(fs, |vs|) && Fills(fs, vs, blank)
    ensures Merged(fs, vs, blank) == vs
  {
    forall i | 0 <= i < |vs| ensures Merged(fs, vs, blank)[i] == vs[i] { MergedAt(fs, vs, blank, i); }
  }
}
