/**
 A table of JSON members against the members of a TLV: a walk over both that accepts the
 table if every member of the TLV is written once, in order, and with a type that holds it.
 */
module JsonMatching {
  import opened Octets
  import opened JsonText
  import opened JsonNumber
  import opened JsonTree
  import opened JsonWriting
  import opened JsonDecimal
  import opened JsonFields
  import opened JsonTyped
  import L = TlvLayout
  import C = TlvCodec
  import Z = TlvSizes

  /** The JSON type holds all values of the member. */
  predicate SameType(s: Simple, f: L.Field) {
    match s
    case SUnsigned(w) => (f == L.U(w) && w <= 8) || (w == 8 && (f.U48? || f.Le64?))
    case SSigned(w) => f == L.S(w) && w <= 8
    case SEnum(_) => f.U?
    case SClock => f == L.Oct(8)
    case SText => f.Text?
    case SBinary => f.Blob?
    case SOctets(k) => f == L.Oct(k) && k > 0
    case STruth => f == L.U(1)
    case _ => false
  }

  function MaskOf(bits: seq<nat>): nat { if bits == [] then 0 else Two(bits[0]) + MaskOf(bits[1..]) }

  /** Every bit of the mask has a name, and no other bit. */
  predicate FlagsMatch(bits: seq<nat>, size: nat, f: L.Field) {
    && Ascending(bits) && bits != []
    && if size > 0 then f == L.Oct(size)
       else f.Flags? && f.mask == MaskOf(bits)
  }

  // ---------------------------------------------------------------- the walk

  /** The members that are left, of a chain or of a record. */
  datatype Source = OfChain(c: L.Chain) | OfFields(fs: seq<L.Field>, i: nat)

  function Head(src: Source): Option<L.Field> {
    match src
    case OfChain(c) => if c.Proc? && c.item.One? then Some(c.item.f) else None
    case OfFields(fs, i) => if i < |fs| then Some(fs[i]) else None
  }

  function Next(src: Source): Source {
    match src
    case OfChain(c) => if c.Proc? then OfChain(c.next) else src
    case OfFields(fs, i) => OfFields(fs, i + 1)
  }

  /** No member is left, but a list may be. */
  function AtEnd(src: Source): Option<Option<L.Item>> {
    match src
    case OfChain(c) =>
      if c.End? then Some(None) else if !c.item.One? && c.next.End? then Some(Some(c.item)) else None
    case OfFields(fs, i) => if i >= |fs| then Some(None) else None
  }

  /** In front of member `at` of the TLV, and of member `k` of the table. */
  datatype Walk = At(src: Source, at: nat, k: nat) | Accepted(list: Option<L.Item>) | Rejected

  /** The members without a name: reserved ones, and counters in a TLV with gaps. */
  predicate Unnamed(f: L.Field, gaps: bool) { f.Reserved? || (gaps && f.Le64?) }

  predicate Fits(s: Simple, src: Source) { Head(src).Some? && SameType(s, Head(src).value) }

  /** The members that one member of the table takes: a structure has two or three. */
  function Taken(kind: Kind, src: Source): (n: nat) {
    match kind
    case One(s) =>
      if s.STime? then (if Head(src) == Some(L.U48) && Head(Next(src)) == Some(L.U(4)) then 2 else 0)
      else if Fits(s, src) then 1 else 0
    case Flags(bits, size) => if Head(src).Some? && FlagsMatch(bits, size, Head(src).value) then 1 else 0
    case Struct(parts) =>
      if |parts| < 2 || !Fits(parts[0], src) || !Fits(parts[1], Next(src)) then 0
      else if |parts| == 2 then 2
      else if |parts| == 3 && Fits(parts[2], Next(Next(src))) then 3 else 0
  }

  function Behind(src: Source, n: nat): Source {
    if n == 1 then Next(src) else if n == 2 then Next(Next(src)) else Next(Next(Next(src)))
  }

  function Step(w: Walk, fs: seq<Field>, gaps: bool): Walk {
    if !w.At? then w
    else if w.k < |fs| && fs[w.k] == Field(0, One(SCount)) then w.(k := w.k + 1)
    else if w.k < |fs| && fs[w.k].at == w.at then
      var n := Taken(fs[w.k].kind, w.src);
      if n == 0 then Rejected else At(Behind(w.src, n), w.at + n, w.k + 1)
    else if Head(w.src).Some? then
      if Unnamed(Head(w.src).value, gaps) then At(Next(w.src), w.at + 1, w.k) else Rejected
    else if w.k < |fs| || AtEnd(w.src).None? then Rejected
    else Accepted(AtEnd(w.src).value)
  }

  function Steps(n: nat, w: Walk, fs: seq<Field>, gaps: bool): Walk {
    if n == 0 then w else Steps(n - 1, Step(w, fs, gaps), fs, gaps)
  }

  /** The walk over a TLV or a record. No table takes more than 36 steps. */
  function Walked(src: Source, fs: seq<Field>, gaps: bool): Walk { Steps(36, At(src, 0, 0), fs, gaps) }

  /** The fields of a list take no gaps and need no masks. */
  predicate ListMatches(l: Lists, item: Option<L.Item>) {
    if item.None? then l.NoList?
    else
      && !item.value.One? && (forall f :: f in item.value.rec.fields ==> !f.Reserved? && !f.Flags?)
      && match l
         case NoList => false
         case Clocks => item.value.rec == L.CLOCK_IDENTITY
         case Records(fs) => Walked(OfFields(item.value.rec.fields, 0), fs, false) == Accepted(None)
  }

  /** The table of a TLV matches its dataField. A list without a count has no member that
      tells its length. */
  predicate Matches(c: L.Chain, sc: Schema, gaps: bool) {
    var w := Walked(OfChain(c), sc.fields, gaps);
    && w.Accepted? && ListMatches(sc.list, w.list)
    && (w.list.Some? && w.list.value.Rest? ==> sc.fields == [])
  }

  // ---------------------------------------------------------------- what acceptance means

  /** The members of a dataField that are not lists. */
  function Singles(c: L.Chain): seq<L.Field> {
    match c
    case End => []
    case Proc(item, next) => if item.One? then [item.f] + Singles(next) else Singles(next)
  }

  /** The list at the end of a dataField; `None` if a list is not at the end. */
  function ListOf(c: L.Chain): Option<Option<L.Item>> {
    match c
    case End => Some(None)
    case Proc(item, next) => if item.One? then ListOf(next) else if next.End? then Some(Some(item)) else None
  }

  function Left(src: Source): seq<L.Field> {
    match src
    case OfChain(c) => Singles(c)
    case OfFields(fs, i) => if i <= |fs| then fs[i..] else []
  }

  function LeftList(src: Source): Option<Option<L.Item>> { if src.OfChain? then ListOf(src.c) else Some(None) }

  predicate KindMatches(kind: Kind, ls: seq<L.Field>, at: nat) {
    && at + KindWidth(kind) <= |ls|
    && match kind
       case One(s) => s.SCount? || if s.STime? then ls[at].U48? && ls[at + 1] == L.U(4) else SameType(s, ls[at])
       case Flags(bits, size) => FlagsMatch(bits, size, ls[at])
       case Struct(parts) => PartsMatch(parts, |parts|, ls, at)
  }

  predicate PartsMatch(parts: seq<Simple>, n: nat, ls: seq<L.Field>, at: nat) {
    n <= |parts| && at + n <= |ls| && forall q :: 0 <= q < n ==> SameType(parts[q], ls[at + q])
  }

  /** Every member of the table is one of the TLV of that type, and every member of the TLV
      is in the table unless it has no name. */
  predicate TableFits(fs: seq<Field>, ls: seq<L.Field>, gaps: bool) {
    && (forall j :: 0 <= j < |fs| ==> KindMatches(fs[j].kind, ls, fs[j].at))
    && (forall i :: 0 <= i < |ls| ==> Covered(fs, i) || Unnamed(ls[i], gaps))
  }

  lemma HeadIs(src: Source)
    ensures Head(src).Some? ==> Left(src) != [] && Left(src)[0] == Head(src).value && Left(Next(src)) == Left(src)[1..] && LeftList(Next(src)) == LeftList(src)
    ensures AtEnd(src).Some? ==> Left(src) == [] && LeftList(src) == AtEnd(src)
  {
    if src.OfFields? {
      assert src.i == |src.fs| ==> src.fs[src.i..] == [];
    } else if src.c.Proc? && src.c.next.End? {
      assert Singles(src.c.next) == [];
    }
  }

  lemma {:induction false} PartsAreSingle(parts: seq<Simple>, ls: seq<L.Field>, at: nat)
    requires PartsMatch(parts, |parts|, ls, at)
    ensures PartsWidth(parts) == |parts|
    decreases |parts|
  {
    hide SameType;
    if parts != [] {
      assert SameType(parts[0], ls[at + 0]);
      SingleWidth(parts[0], ls[at]);
      forall q | 0 <= q < |parts[1..]| ensures SameType(parts[1..][q], ls[at + 1 + q]) {
        assert SameType(parts[q + 1], ls[at + (q + 1)]);
      }
      PartsAreSingle(parts[1..], ls, at + 1);
    }
  }

  lemma SingleWidth(s: Simple, f: L.Field)
    requires SameType(s, f)
    ensures Width(s) == 1
  {
  }

  lemma TakenMatches(kind: Kind, src: Source, ls: seq<L.Field>, at: nat)
    requires at <= |ls| && Left(src) == ls[at..] && Taken(kind, src) > 0
    ensures var n := Taken(kind, src);
      && at + n <= |ls| && KindMatches(kind, ls, at) && KindWidth(kind) == n
      && Left(Behind(src, n)) == ls[at + n..] && LeftList(Behind(src, n)) == LeftList(src)
  {
    hide SameType, FlagsMatch, Left, LeftList, Head, Next;
    HeadIs(src);
    HeadIs(Next(src));
    HeadIs(Next(Next(src)));
    assert |ls[at..]| == |ls| - at;
    match kind
    case One(s) => if !s.STime? { SingleWidth(s, Head(src).value); }
    case Flags(_, _) =>
    case Struct(parts) => PartsAreSingle(parts, ls, at);
  }

  /** What is behind the walk matches. */
  predicate Held(w: Walk, whole: Source, fs: seq<Field>, gaps: bool) {
    var ls := Left(whole);
    match w
    case Rejected => true
    case Accepted(list) => TableFits(fs, ls, gaps) && LeftList(whole) == Some(list)
    case At(src, at, k) =>
      && at <= |ls| && Left(src) == ls[at..] && LeftList(src) == LeftList(whole) && k <= |fs|
      && (forall j :: 0 <= j < k ==> KindMatches(fs[j].kind, ls, fs[j].at))
      && (forall i :: 0 <= i < at ==> Covered(fs, i) || Unnamed(ls[i], gaps))
  }

  lemma CoveredBy(fs: seq<Field>, k: nat, i: nat)
    requires k < |fs| && fs[k].at <= i < fs[k].at + KindWidth(fs[k].kind)
    ensures Covered(fs, i)
  {
    assert fs[k] in fs;
  }

  lemma StepHeld(w: Walk, whole: Source, fs: seq<Field>, gaps: bool)
    requires Held(w, whole, fs, gaps)
    ensures Held(Step(w, fs, gaps), whole, fs, gaps)
  {
    hide KindMatches, KindWidth, Left, LeftList, Head, AtEnd, Next, Taken, Behind, Covered, Unnamed;
    if w.At? {
      var ls := Left(whole);
      HeadIs(w.src);
      if w.k < |fs| && fs[w.k] == Field(0, One(SCount)) {
        CountMatches(ls);
      } else if w.k < |fs| && fs[w.k].at == w.at {
        var n := Taken(fs[w.k].kind, w.src);
        if n > 0 {
          TakenMatches(fs[w.k].kind, w.src, ls, w.at);
          forall i | w.at <= i < w.at + n ensures Covered(fs, i) { CoveredBy(fs, w.k, i); }
        }
      }
    }
  }

  lemma CountMatches(ls: seq<L.Field>)
    ensures KindMatches(One(SCount), ls, 0)
  {
  }

  lemma {:induction false} StepsHeld(n: nat, w: Walk, whole: Source, fs: seq<Field>, gaps: bool)
    requires Held(w, whole, fs, gaps)
    ensures Held(Steps(n, w, fs, gaps), whole, fs, gaps)
    decreases n
  {
    hide Held, Step;
    if n > 0 {
      StepHeld(w, whole, fs, gaps);
      StepsHeld(n - 1, Step(w, fs, gaps), whole, fs, gaps);
    }
  }

  /** A table that is accepted has every member of the TLV, with its type. */
  lemma WalkedFits(src: Source, fs: seq<Field>, gaps: bool)
    requires Walked(src, fs, gaps).Accepted?
    ensures TableFits(fs, Left(src), gaps) && LeftList(src) == Some(Walked(src, fs, gaps).list)
  {
    hide Steps, TableFits;
    assert Left(src)[0..] == Left(src);
    StepsHeld(36, At(src, 0, 0), src, fs, gaps);
  }

  // ---------------------------------------------------------------- evaluating the walk

  lemma {:induction false} StepsMore(m: nat, n: nat, w: Walk, fs: seq<Field>, gaps: bool)
    ensures Steps(m + n, w, fs, gaps) == Steps(n, Steps(m, w, fs, gaps), fs, gaps)
    decreases m
  {
    hide Step;
    if m > 0 { StepsMore(m - 1, n, Step(w, fs, gaps), fs, gaps); }
  }

  lemma {:induction false} StepsDone(n: nat, w: Walk, fs: seq<Field>, gaps: bool)
    requires w.Accepted?
    ensures Steps(n, w, fs, gaps) == w
    decreases n
  {
    if n > 0 { StepsDone(n - 1, w, fs, gaps); }
  }

  function Past(src: Source, n: nat): Source
    decreases n
  {
    if n == 0 then src else Past(Next(src), n - 1)
  }

  /** The walk when `at` members of the TLV and `k` of the table are behind it. */
  function Reached(src: Source, at: nat, k: nat): Walk { At(Past(src, at), at, k) }

  predicate Leads(fs: seq<Field>, a: Walk, b: Walk, c: Walk, d: Walk, e: Walk) {
    && Step(a, fs, false) == b && Step(b, fs, false) == c
    && Step(c, fs, false) == d && Step(d, fs, false) == e
  }

  lemma LeadsSteps(n: nat, fs: seq<Field>, a: Walk, b: Walk, c: Walk, d: Walk, e: Walk)
    requires n >= 4 && Leads(fs, a, b, c, d, e)
    ensures Steps(n, a, fs, false) == Steps(n - 4, e, fs, false)
  {
    hide Step;
    assert Steps(n, a, fs, false) == Steps(n - 1, b, fs, false) == Steps(n - 2, c, fs, false);
    assert Steps(n - 2, c, fs, false) == Steps(n - 3, d, fs, false) == Steps(n - 4, e, fs, false);
  }

  lemma StaysAccepted(fs: seq<Field>, w: Walk)
    requires w.Accepted?
    ensures Leads(fs, w, w, w, w, w)
  {
  }

  /** A walk of up to twelve steps. */
  lemma WalkedThrough(src: Source, fs: seq<Field>, w1: Walk, w2: Walk, w3: Walk, w4: Walk, w5: Walk, w6: Walk,
                      w7: Walk, w8: Walk, w9: Walk, w10: Walk, w11: Walk, end: Walk)
    requires Leads(fs, At(src, 0, 0), w1, w2, w3, w4) && Leads(fs, w4, w5, w6, w7, w8) && Leads(fs, w8, w9, w10, w11, end)
    requires end.Accepted?
    ensures Walked(src, fs, false) == end
  {
    hide Leads, Steps;
    LeadsSteps(36, fs, At(src, 0, 0), w1, w2, w3, w4);
    LeadsSteps(32, fs, w4, w5, w6, w7, w8);
    LeadsSteps(28, fs, w8, w9, w10, w11, end);
    StepsDone(24, end, fs, false);
  }

  function Steps4(w: Walk, fs: seq<Field>): Walk {
    Step(Step(Step(Step(w, fs, false), fs, false), fs, false), fs, false)
  }

  /** A walk of up to four steps. */
  lemma WalkedFew(src: Source, fs: seq<Field>)
    requires Steps4(At(src, 0, 0), fs).Accepted?
    ensures Walked(src, fs, false) == Steps4(At(src, 0, 0), fs)
  {
    var w1 := Step(At(src, 0, 0), fs, false);
    var w2 := Step(w1, fs, false);
    var w3, end := Step(w2, fs, false), Steps4(At(src, 0, 0), fs);
    StaysAccepted(fs, end);
    assert Leads(fs, At(src, 0, 0), w1, w2, w3, end);
    hide Leads, Step, Steps4;
    WalkedThrough(src, fs, w1, w2, w3, end, end, end, end, end, end, end, end, end);
  }

  lemma FewMatch(c: L.Chain, fs: seq<Field>)
    requires Steps4(At(OfChain(c), 0, 0), fs) == Accepted(None)
    ensures Matches(c, Schema(fs, NoList), false)
  {
    hide Steps4, Walked;
    WalkedFew(OfChain(c), fs);
  }

  /** A TLV without a list. */
  lemma MembersMatch(c: L.Chain, fs: seq<Field>)
    requires Walked(OfChain(c), fs, false) == Accepted(None)
    ensures Matches(c, Schema(fs, NoList), false)
  {
    hide Walked;
  }

  /** A TLV with a list of records. */
  lemma RecordsMatch(c: L.Chain, fs: seq<Field>, item: L.Item, rec: seq<Field>)
    requires Walked(OfChain(c), fs, false) == Accepted(Some(item)) && item.Counted?
    requires forall f :: f in item.rec.fields ==> !f.Reserved? && !f.Flags?
    requires Walked(OfFields(item.rec.fields, 0), rec, false) == Accepted(None)
    ensures Matches(c, Schema(fs, Records(rec)), false)
  {
    hide Walked;
  }

  /** The masks of the flags that have names. */
  lemma MaskValues()
    ensures MaskOf([0]) == 0x1 && MaskOf([0, 1]) == 0x3 && MaskOf([0, 1, 2]) == 0x7
    ensures MaskOf([3]) == 0x8 && MaskOf([4, 5]) == 0x30 && MaskOf([0, 1, 2, 3, 4, 5]) == 0x3f
  {
    assert Two(2) == 4 && Two(4) == 16;
    hide Two;
    assert [0, 1][1..] == [1] && [4, 5][1..] == [5];
    assert [0, 1, 2][1..] == [1, 2] && [1, 2][1..] == [2];
    assert MaskOf([2]) == 4 && MaskOf([1, 2]) == 6;
    assert [0, 1, 2, 3, 4, 5][1..] == [1, 2, 3, 4, 5] && [1, 2, 3, 4, 5][1..] == [2, 3, 4, 5];
    assert [2, 3, 4, 5][1..] == [3, 4, 5] && [3, 4, 5][1..] == [4, 5];
    assert MaskOf([4, 5]) == 48 && MaskOf([3, 4, 5]) == 56;
    assert MaskOf([2, 3, 4, 5]) == 60 && MaskOf([1, 2, 3, 4, 5]) == 62;
  }

  // ---------------------------------------------------------------- values that JSON can express

  /** What a value needs beyond its type: a name, no escapes, at least one second or octet. */
  ghost predicate SimpleNeeds(c: Context, s: Simple, vs: seq<Val>, at: nat) {
    && at + Width(s) <= |vs|
    && match s
       case SEnum(t) => NameOf(c.names(t), Num(vs[at])).Some?
       case STime => 0 < Num(vs[at]) && Num(vs[at + 1]) < 1_000_000_000
       case SText => Unescaped(Chars(Oct(vs[at])))
       case SBinary => Oct(vs[at]) != []
       case STruth => Num(vs[at]) <= 1
       case _ => true
  }

  /** A single flag is the lowest bit. Flags in several octets have no other bits. */
  ghost predicate KindNeeds(c: Context, kind: Kind, vs: seq<Val>, at: nat) {
    match kind
    case One(s) => SimpleNeeds(c, s, vs, at)
    case Struct(parts) => forall q :: 0 <= q < |parts| ==> SimpleNeeds(c, parts[q], vs, at + q)
    case Flags(bits, size) =>
      && at < |vs|
      && var n := FlagNum(vs[at]);
         if size > 0 then vs[at] == FlagVal(NamedBits(bits, n), size) else bits == [0] && n > 0 ==> BitSet(n, 0)
  }

  /** Counters that have no name are zero. */
  predicate UnnamedZero(fs: seq<Field>, ls: seq<L.Field>, vs: seq<Val>) {
    |ls| == |vs| && forall i :: 0 <= i < |ls| ==> ls[i].Le64? ==> Covered(fs, i) || vs[i] == C.Num(0)
  }

  ghost predicate FieldsNeed(c: Context, fs: seq<Field>, ls: seq<L.Field>, vs: seq<Val>) {
    (forall j :: 0 <= j < |fs| ==> KindNeeds(c, fs[j].kind, vs, fs[j].at)) && UnnamedZero(fs, ls, vs)
  }

  function EmptyVals(ls: seq<L.Field>): seq<Val> { seq(|ls|, i requires 0 <= i < |ls| => Z.EmptyVal(ls[i])) }

  lemma {:induction false} NormAt(ls: seq<L.Field>, vs: seq<Val>, i: nat)
    requires |ls| == |vs| && i < |ls|
    ensures C.NormAll(ls, vs)[i] == C.Norm(ls[i], vs[i])
    decreases |ls|
  {
    if i > 0 { NormAt(ls[1..], vs[1..], i - 1); }
  }

  lemma SimpleFrom(c: Context, s: Simple, f: L.Field, vs: seq<Val>, at: nat)
    requires SameType(s, f) && SimpleNeeds(c, s, vs, at) && C.Fits(f, vs[at])
    ensures SimpleOk(c, s, vs, at)
  {
    hide Unescaped, NameOf, Pow256;
  }

  lemma {:induction false} PartsFrom(c: Context, parts: seq<Simple>, ls: seq<L.Field>, vs: seq<Val>, at: nat)
    requires PartsMatch(parts, |parts|, ls, at) && C.FitsAll(ls, vs) && c.count(vs) <= UINT64_MAX
    requires forall q :: 0 <= q < |parts| ==> SimpleNeeds(c, parts[q], vs, at + q)
    ensures PartsOk(c, parts, vs, at)
    decreases |parts|
  {
    hide SimpleOk, SameType, SimpleNeeds, C.Fits;
    if parts != [] {
      assert SameType(parts[0], ls[at + 0]) && SimpleNeeds(c, parts[0], vs, at + 0);
      SimpleFrom(c, parts[0], ls[at], vs, at);
      SingleWidth(parts[0], ls[at]);
      forall q | 0 <= q < |parts[1..]|
        ensures SameType(parts[1..][q], ls[at + 1 + q]) && SimpleNeeds(c, parts[1..][q], vs, at + 1 + q)
      {
        assert SameType(parts[q + 1], ls[at + (q + 1)]) && SimpleNeeds(c, parts[q + 1], vs, at + (q + 1));
      }
      PartsFrom(c, parts[1..], ls, vs, at + 1);
    }
  }

  // ---------------------------------------------------------------- flags

  /** The lowest bit of a mask, and the others. */
  lemma {:induction false} AndSplit(n: nat, b: nat, m: nat)
    requires m % Two(b + 1) == 0
    ensures BitAnd(n, Two(b) + m) == (if BitSet(n, b) then Two(b) else 0) + BitAnd(n, m)
    decreases b
  {
    var t := Two(b);
    if b == 0 {
      assert n / 1 == n && m % 2 == 0;
    } else {
      ModDouble(m, Two(b));
      assert m / 2 % Two(b) == 0 && m % 2 == 0 by { HalfMultiple(m, Two(b)); }
      DivTwice(n, Two(b - 1));
      AndSplit(n / 2, b - 1, m / 2);
      assert (t + m) / 2 == Two(b - 1) + m / 2 && (t + m) % 2 == 0;
    }
  }

  lemma HalfMultiple(m: nat, p: nat)
    requires p > 0 && m % (2 * p) == 0
    ensures m / 2 % p == 0 && m % 2 == 0
  {
    var q := m / (2 * p);
    assert m == 2 * (p * q);
    ModUnique(m / 2, p, q, 0);
  }

  lemma {:induction false} MaskHigh(bits: seq<nat>, b: nat)
    requires forall i :: 0 <= i < |bits| ==> b <= bits[i]
    ensures MaskOf(bits) % Two(b) == 0
    decreases |bits|
  {
    if bits != [] {
      MaskHigh(bits[1..], b);
      TwoMultiple(b, bits[0]);
      AddMultiple(Two(bits[0]), MaskOf(bits[1..]), Two(b));
    }
  }

  lemma {:induction false} TwoMultiple(a: nat, b: nat)
    requires a <= b
    ensures Two(b) % Two(a) == 0
    decreases b
  {
    if a == b {
      ModUnique(Two(a), Two(a), 1, 0);
    } else {
      TwoMultiple(a, b - 1);
      AddMultiple(Two(b - 1), Two(b - 1), Two(a));
    }
  }

  lemma AddMultiple(x: nat, y: nat, m: nat)
    requires m > 0 && x % m == 0 && y % m == 0
    ensures (x + y) % m == 0
  {
    var q := x / m + y / m;
    assert x + y == m * q;
    ModUnique(x + y, m, q, 0);
  }

  /** Every bit of the list is one of the mask: the others are below it or above. */
  lemma {:induction false} MaskBit(bits: seq<nat>, i: nat)
    requires Ascending(bits) && i < |bits|
    ensures BitSet(MaskOf(bits), bits[i])
    decreases |bits|
  {
    hide BitSet;
    var m := MaskOf(bits[1..]);
    MaskHigh(bits[1..], bits[0] + 1);
    if i == 0 {
      LowestBit(bits[0], m);
    } else {
      MaskBit(bits[1..], i - 1);
      HigherBit(bits[0], m, bits[i]);
    }
  }

  lemma {:induction false} LowestBit(b: nat, m: nat)
    requires m % Two(b + 1) == 0
    ensures BitSet(Two(b) + m, b)
    decreases b
  {
    var x := Two(b) + m;
    if b == 0 {
      assert x / 1 == x && m % 2 == 0;
    } else {
      HalfMultiple(m, Two(b));
      LowestBit(b - 1, m / 2);
      DivTwice(x, Two(b - 1));
      assert x / 2 == Two(b - 1) + m / 2;
    }
  }

  lemma {:induction false} HigherBit(a: nat, m: nat, b: nat)
    requires a < b && m % Two(a + 1) == 0 && BitSet(m, b)
    ensures BitSet(Two(a) + m, b)
    decreases a
  {
    var x := Two(a) + m;
    DivTwice(x, Two(b - 1));
    DivTwice(m, Two(b - 1));
    if a == 0 {
      assert m % 2 == 0 && x / 2 == m / 2;
    } else {
      HalfMultiple(m, Two(a));
      HigherBit(a - 1, m / 2, b - 1);
      assert x / 2 == Two(a - 1) + m / 2;
    }
  }

  /** Masking keeps exactly the bits that have a name. */
  lemma {:induction false} AndNamed(bits: seq<nat>, n: nat)
    requires Ascending(bits)
    ensures BitAnd(n, MaskOf(bits)) == NamedBits(bits, n)
    decreases |bits|
  {
    hide BitSet;
    if bits != [] {
      MaskHigh(bits[1..], bits[0] + 1);
      AndSplit(n, bits[0], MaskOf(bits[1..]));
      AndNamed(bits[1..], n);
    }
  }

  lemma {:induction false} AndBit(n: nat, m: nat, b: nat)
    ensures BitSet(BitAnd(n, m), b) <==> BitSet(n, b) && BitSet(m, b)
    decreases b
  {
    var x := BitAnd(n, m);
    if b == 0 {
      assert x / 1 == x && n / 1 == n && m / 1 == m;
      LowBit(n, m);
    } else {
      DivTwice(x, Two(b - 1));
      DivTwice(n, Two(b - 1));
      DivTwice(m, Two(b - 1));
      LowBit(n, m);
      AndBit(n / 2, m / 2, b - 1);
    }
  }

  lemma LowBit(n: nat, m: nat)
    ensures BitAnd(n, m) / 2 == BitAnd(n / 2, m / 2)
    ensures BitAnd(n, m) % 2 == 1 <==> n % 2 == 1 && m % 2 == 1
  {
    if n == 0 || m == 0 { assert BitAnd(n / 2, m / 2) == 0; }
  }

  lemma OnlyLowest(bits: seq<nat>)
    requires bits != [] && MaskOf(bits) <= 1
    ensures bits == [0] && MaskOf(bits) == 1
  {
  }

  /** Flags that are normalised have no other bits than those with a name, and the flags
      themselves show the same bits. */
  lemma FlagsFrom(bits: seq<nat>, mask: nat, n: nat)
    requires FlagsMatch(bits, 0, L.Flags(mask)) && n < 256
    ensures var x := C.NormFlags(mask, n);
      && x == NamedBits(bits, x)
      && ((bits == [0] && n > 0 ==> BitSet(n, 0)) ==> forall i :: 0 <= i < |bits| ==> BitSet(x, bits[i]) == BitSet(n, bits[i]))
  {
    hide BitSet, BitAnd, Ascending;
    var x := C.NormFlags(mask, n);
    AndNamed(bits, x);
    if mask > 1 {
      BitAndIdempotent(n, mask);
      forall i | 0 <= i < |bits| ensures BitSet(x, bits[i]) == BitSet(n, bits[i]) {
        MaskBit(bits, i);
        AndBit(n, mask, bits[i]);
      }
    } else {
      OnlyLowest(bits);
      ZeroOne();
    }
  }

  lemma ZeroOne()
    ensures BitAnd(0, 1) == 0 && BitAnd(1, 1) == 1 && BitSet(1, 0) && !BitSet(0, 0)
  {
    assert BitAnd(0, 0) == 0 && Two(0) == 1;
  }

  // ---------------------------------------------------------------- members of a table

  predicate SameAt(s: Simple, vs: seq<Val>, ws: seq<Val>, at: nat) {
    && at + Width(s) <= |vs| == |ws|
    && forall i :: at <= i < at + Width(s) ==> vs[i] == ws[i]
  }

  /** Only flags and reserved members are changed by being normalised. */
  lemma NormSame(ls: seq<L.Field>, vs: seq<Val>, i: nat)
    requires |ls| == |vs| && i < |ls| && !ls[i].Flags? && !ls[i].Reserved?
    ensures C.NormAll(ls, vs)[i] == vs[i]
  {
    NormAt(ls, vs, i);
  }

  lemma NeedsSame(c: Context, s: Simple, vs: seq<Val>, ws: seq<Val>, at: nat)
    requires SameAt(s, vs, ws, at) && SimpleNeeds(c, s, vs, at)
    ensures SimpleNeeds(c, s, ws, at)
  {
    hide Unescaped, NameOf;
  }

  lemma SimpleSame(s: Simple, ls: seq<L.Field>, vs: seq<Val>, at: nat)
    requires |ls| == |vs| && KindMatches(One(s), ls, at)
    ensures SameAt(s, vs, C.NormAll(ls, vs), at)
  {
    hide C.NormAll;
    if !s.SCount? { NormSame(ls, vs, at); }
    if s.STime? { NormSame(ls, vs, at + 1); }
  }

  lemma PartSame(parts: seq<Simple>, ls: seq<L.Field>, vs: seq<Val>, at: nat, q: nat)
    requires |ls| == |vs| && PartsMatch(parts, |parts|, ls, at) && q < |parts|
    ensures SameAt(parts[q], vs, C.NormAll(ls, vs), at + q)
  {
    hide C.NormAll;
    assert SameType(parts[q], ls[at + q]);
    SingleWidth(parts[q], ls[at + q]);
    NormSame(ls, vs, at + q);
  }

  /** A member of the table can be written once its values are normalised. */
  lemma FieldFrom(c: Context, f: Field, ls: seq<L.Field>, vs: seq<Val>)
    requires C.FitsAll(ls, vs) && KindMatches(f.kind, ls, f.at) && KindNeeds(c, f.kind, vs, f.at)
    requires c.count(C.NormAll(ls, vs)) <= UINT64_MAX
    ensures FieldOk(c, f, C.NormAll(ls, vs))
  {
    hide C.NormAll, C.FitsAll, SimpleOk, SimpleNeeds, PartsOk, PartsMatch, PartsWidth, SameType, NamedBits, FlagVal, FlagNum, FlagsMatch;
    SameLength(ls, vs);
    var ws, at := C.NormAll(ls, vs), f.at;
    C.AllNormStable(ls, vs);
    match f.kind {
      case One(s) =>
        SimpleSame(s, ls, vs, at);
        NeedsSame(c, s, vs, ws, at);
        SimpleOf(c, s, ls, ws, at);
      case Flags(bits, size) => FlagFrom(bits, size, ls, vs, at);
      case Struct(parts) => StructFrom(c, parts, ls, vs, at);
    }
  }

  lemma SameLength(ls: seq<L.Field>, vs: seq<Val>)
    requires C.FitsAll(ls, vs)
    ensures |ls| == |vs|
  {
  }

  lemma StructFrom(c: Context, parts: seq<Simple>, ls: seq<L.Field>, vs: seq<Val>, at: nat)
    requires C.FitsAll(ls, vs) && PartsMatch(parts, |parts|, ls, at) && c.count(C.NormAll(ls, vs)) <= UINT64_MAX
    requires forall q :: 0 <= q < |parts| ==> SimpleNeeds(c, parts[q], vs, at + q)
    ensures PartsOk(c, parts, C.NormAll(ls, vs), at)
  {
    hide C.NormAll, C.Fits, PartsOk, SimpleNeeds, SameType;
    C.AllNormStable(ls, vs);
    forall q | 0 <= q < |parts| ensures SimpleNeeds(c, parts[q], C.NormAll(ls, vs), at + q) {
      PartSame(parts, ls, vs, at, q);
      NeedsSame(c, parts[q], vs, C.NormAll(ls, vs), at + q);
    }
    PartsFrom(c, parts, ls, C.NormAll(ls, vs), at);
  }

  lemma SimpleOf(c: Context, s: Simple, ls: seq<L.Field>, vs: seq<Val>, at: nat)
    requires C.FitsAll(ls, vs) && KindMatches(One(s), ls, at) && SimpleNeeds(c, s, vs, at)
    ensures SimpleOk(c, s, vs, at)
  {
    hide SameType;
    if s.STime? {
      C.Pow256Values();
      assert C.Fits(ls[at], vs[at]) && C.Fits(ls[at + 1], vs[at + 1]);
    } else if !s.SCount? {
      hide SimpleOk, SimpleNeeds, C.Fits;
      SimpleFrom(c, s, ls[at], vs, at);
    }
  }

  lemma FlagFrom(bits: seq<nat>, size: nat, ls: seq<L.Field>, vs: seq<Val>, at: nat)
    requires C.FitsAll(ls, vs) && at < |ls| && FlagsMatch(bits, size, ls[at])
    requires size > 0 ==> vs[at] == FlagVal(NamedBits(bits, FlagNum(vs[at])), size)
    ensures var v := C.NormAll(ls, vs)[at]; Ascending(bits) && v == FlagVal(NamedBits(bits, FlagNum(v)), size)
  {
    hide NamedBits, C.NormFlags;
    NormAt(ls, vs, at);
    assert C.Fits(ls[at], vs[at]);
    if size == 0 { FlagsFrom(bits, ls[at].mask, vs[at].n); }
  }

  /** The members of a table can be written, and all others are as in an empty TLV. */
  lemma FieldsFrom(c: Context, fs: seq<Field>, ls: seq<L.Field>, gaps: bool, vs: seq<Val>)
    requires TableFits(fs, ls, gaps) && C.FitsAll(ls, vs) && FieldsNeed(c, fs, ls, vs)
    requires fs == [] || c.count(C.NormAll(ls, vs)) <= UINT64_MAX
    ensures var ws := C.NormAll(ls, vs);
      Within(fs, |vs|) && FieldsOk(c, fs, ws) && Fills(fs, ws, EmptyVals(ls))
  {
    hide C.NormAll, C.Fits, KindMatches, KindNeeds, FieldOk, Covered, KindWidth;
    var ws := C.NormAll(ls, vs);
    forall j | 0 <= j < |fs| ensures FieldOk(c, fs[j], ws) && fs[j].at + KindWidth(fs[j].kind) <= |ls| {
      FieldFrom(c, fs[j], ls, vs);
      MatchWidth(fs[j], ls);
    }
    forall i | 0 <= i < |ws| && !Covered(fs, i) ensures EmptyVals(ls)[i] == ws[i] {
      assert Unnamed(ls[i], gaps);
      NormAt(ls, vs, i);
      assert ls[i].Le64? ==> vs[i] == C.Num(0);
    }
  }

  lemma MatchWidth(f: Field, ls: seq<L.Field>)
    requires KindMatches(f.kind, ls, f.at)
    ensures f.at + KindWidth(f.kind) <= |ls|
  {
  }

  // ---------------------------------------------------------------- the text is the same

  lemma {:induction false} FlagItemsSame(c: Context, bits: seq<nat>, n: nat, m: nat, k: nat, tail: Items)
    requires forall i :: 0 <= i < |bits| ==> BitSet(n, bits[i]) == BitSet(m, bits[i])
    ensures FlagItems(c, bits, n, k, tail) == FlagItems(c, bits, m, k, tail)
    decreases |bits|
  {
    hide BitSet;
    if bits != [] { FlagItemsSame(c, bits[1..], n, m, k + 1, tail); }
  }

  lemma NodeSame(c: Context, s: Simple, vs: seq<Val>, ws: seq<Val>, at: nat)
    requires SameAt(s, vs, ws, at) && c.count(vs) == c.count(ws)
    ensures SimpleNode(c, s, vs, at) == SimpleNode(c, s, ws, at)
  {
    hide NumberOf, TimeNumber, ClockOf, NameOf;
  }

  lemma {:induction false} PartItemsSame(c: Context, parts: seq<Simple>, ls: seq<L.Field>, vs: seq<Val>, at: nat, k: nat)
    requires |ls| == |vs| && PartsMatch(parts, |parts|, ls, at) && c.count(vs) == c.count(C.NormAll(ls, vs))
    ensures PartsWidth(parts) == |parts|
    ensures PartItems(c, parts, vs, at, k) == PartItems(c, parts, C.NormAll(ls, vs), at, k)
    decreases |parts|
  {
    hide SameType, SimpleNode, C.NormAll, SameAt;
    PartsAreSingle(parts, ls, at);
    if parts != [] {
      PartSame(parts, ls, vs, at, 0);
      NodeSame(c, parts[0], vs, C.NormAll(ls, vs), at);
      SingleWidth(parts[0], ls[at + 0]);
      forall q | 0 <= q < |parts[1..]| ensures SameType(parts[1..][q], ls[at + 1 + q]) {
        assert SameType(parts[q + 1], ls[at + (q + 1)]);
      }
      PartItemsSame(c, parts[1..], ls, vs, at + 1, k + 1);
    }
  }

  lemma KindItemsSame(c: Context, f: Field, ls: seq<L.Field>, vs: seq<Val>, k: nat, tail: Items)
    requires C.FitsAll(ls, vs) && KindMatches(f.kind, ls, f.at) && KindNeeds(c, f.kind, vs, f.at)
    requires c.count(vs) == c.count(C.NormAll(ls, vs))
    ensures KindItems(c, f, vs, k, tail) == KindItems(c, f, C.NormAll(ls, vs), k, tail)
  {
    hide C.NormAll, SimpleNode, PartItems, FlagItems, SameAt, SimpleNeeds, NamedBits, BitSet, C.NormFlags;
    match f.kind
    case One(s) =>
      SimpleSame(s, ls, vs, f.at);
      NodeSame(c, s, vs, C.NormAll(ls, vs), f.at);
    case Flags(bits, size) =>
      NormAt(ls, vs, f.at);
      assert C.Fits(ls[f.at], vs[f.at]);
      if size == 0 {
        FlagsFrom(bits, ls[f.at].mask, vs[f.at].n);
        FlagItemsSame(c, bits, vs[f.at].n, C.NormFlags(ls[f.at].mask, vs[f.at].n), k, tail);
      }
    case Struct(parts) => PartItemsSame(c, parts, ls, vs, f.at, 0);
  }

  /** Flags that are not normalised give the same text. */
  lemma {:induction false} ItemsSame(c: Context, fs: seq<Field>, ls: seq<L.Field>, vs: seq<Val>, k: nat, tail: Items)
    requires C.FitsAll(ls, vs) && c.count(vs) == c.count(C.NormAll(ls, vs)) && Within(fs, |vs|)
    requires forall j :: 0 <= j < |fs| ==> KindMatches(fs[j].kind, ls, fs[j].at) && KindNeeds(c, fs[j].kind, vs, fs[j].at)
    ensures ItemsOf(c, fs, vs, k, tail) == ItemsOf(c, fs, C.NormAll(ls, vs), k, tail)
    decreases |fs|
  {
    hide C.NormAll, C.Fits, KindItems, KindMatches, KindNeeds;
    if fs != [] {
      var more := ItemsOf(c, fs[1..], vs, k + NameCount(fs[0].kind), tail);
      ItemsSame(c, fs[1..], ls, vs, k + NameCount(fs[0].kind), tail);
      KindItemsSame(c, fs[0], ls, vs, k, more);
    }
  }

  // ---------------------------------------------------------------- a TLV as a document

  /** The members and the list of a dataField. */
  function DocOf(ss: seq<C.Slot>): Doc {
    if ss == [] then Doc([], [])
    else
      var more := DocOf(ss[1..]);
      match ss[0]
      case Scalar(v) => Doc([v] + more.vals, more.recs)
      case List(recs) => Doc(more.vals, recs)
  }

  /** The dataField with the members and the list of a document. */
  function SlotsOf(c: L.Chain, d: Doc): seq<C.Slot> {
    match c
    case End => []
    case Proc(item, next) =>
      if !item.One? then [C.List(d.recs)] + SlotsOf(next, d)
      else if d.vals == [] then []
      else [C.Scalar(d.vals[0])] + SlotsOf(next, d.(vals := d.vals[1..]))
  }

  lemma {:induction false} SlotsBack(c: L.Chain, ss: seq<C.Slot>)
    requires C.ChainFits(c, ss) && ListOf(c).Some?
    ensures SlotsOf(c, DocOf(ss)) == ss
    decreases c
  {
    hide C.ItemFits;
    if c.Proc? {
      SlotKind(c.item, ss[0]);
      var d, more := DocOf(ss), DocOf(ss[1..]);
      if c.item.One? {
        SlotsBack(c.next, ss[1..]);
        assert d.vals[1..] == more.vals;
        assert d.(vals := d.vals[1..]) == more;
      }
      assert ss == [ss[0]] + ss[1..];
    }
  }

  lemma SlotKind(item: L.Item, s: C.Slot)
    requires C.ItemFits(item, s)
    ensures if item.One? then s.Scalar? && C.Fits(item.f, s.v) else s.List? && C.RecsFit(item.rec, s.recs)
    ensures L.WellFormedItem(item) && item.Counted? ==> |s.recs| <= 0x1_0000
  {
    hide C.RecsFit, C.Fits;
    C.Pow256Values();
  }

  lemma {:induction false} DocMembers(c: L.Chain, ss: seq<C.Slot>)
    requires C.ChainFits(c, ss)
    ensures C.FitsAll(Singles(c), DocOf(ss).vals)
    ensures DocOf(C.ChainNorm(c, ss)).vals == C.NormAll(Singles(c), DocOf(ss).vals)
    decreases c
  {
    hide C.ItemFits, C.Fits;
    if c.Proc? {
      SlotKind(c.item, ss[0]);
      DocMembers(c.next, ss[1..]);
      var n := C.ChainNorm(c, ss);
      assert n[1..] == C.ChainNorm(c.next, ss[1..]);
      if c.item.One? {
        var vs := DocOf(ss).vals;
        assert vs[1..] == DocOf(ss[1..]).vals && Singles(c)[1..] == Singles(c.next);
      }
    }
  }

  lemma {:induction false} DocList(c: L.Chain, ss: seq<C.Slot>)
    requires C.ChainFits(c, ss) && L.WellFormed(c) && ListOf(c).Some?
    ensures var recs, list := DocOf(ss).recs, ListOf(c).value;
      if list.None? then recs == [] && DocOf(C.ChainNorm(c, ss)).recs == []
      else
        && !list.value.One? && C.RecsFit(list.value.rec, recs) && (list.value.Counted? ==> |recs| <= 0x1_0000)
        && DocOf(C.ChainNorm(c, ss)).recs == C.RecsNorm(list.value.rec, recs)
    decreases c
  {
    hide C.ItemFits, C.RecsFit;
    if c.Proc? {
      SlotKind(c.item, ss[0]);
      var n := C.ChainNorm(c, ss);
      assert n[1..] == C.ChainNorm(c.next, ss[1..]);
      if c.item.One? { DocList(c.next, ss[1..]); }
    }
  }

  lemma {:induction false} DocEmpty(c: L.Chain)
    requires L.WellFormed(c)
    ensures DocOf(Z.EmptySlots(c)).vals == EmptyVals(Singles(c))
    decreases c
  {
    hide Z.EmptyVal, EmptyVals;
    if c.End? {
      assert EmptyVals([]) == [] by { EmptyNone([]); }
    } else {
      DocEmpty(c.next);
      assert Z.EmptySlots(c)[1..] == Z.EmptySlots(c.next);
      if c.item.One? { EmptyOne(c.item.f, Singles(c.next)); }
    }
  }

  lemma EmptyNone(ls: seq<L.Field>)
    requires ls == []
    ensures EmptyVals(ls) == []
  {
  }

  lemma EmptyOne(f: L.Field, ls: seq<L.Field>)
    ensures EmptyVals([f] + ls) == [Z.EmptyVal(f)] + EmptyVals(ls)
  {
  }

  // ---------------------------------------------------------------- a TLV comes back

  ghost predicate RecordNeeds(c: Context, fs: seq<Field>, v: seq<Val>) {
    forall j :: 0 <= j < |fs| ==> KindNeeds(c, fs[j].kind, v, fs[j].at)
  }

  /** The values of a TLV that its JSON form can express. */
  ghost predicate Expressible(c: Context, sc: Schema, ls: seq<L.Field>, d: Doc) {
    && FieldsNeed(c, sc.fields, ls, d.vals)
    && (sc.list.Records? ==> forall i :: 0 <= i < |d.recs| ==> RecordNeeds(c, sc.list.rec, d.recs[i]))
  }

  /** The members of a TLV, and of a record, that the reader starts with. */
  function BlankOf(c: L.Chain): seq<Val>
    requires L.WellFormed(c)
  {
    DocOf(Z.EmptySlots(c)).vals
  }

  function BlankRec(c: L.Chain): seq<Val> {
    var list := ListOf(c);
    if list.Some? && list.value.Some? && !list.value.value.One? then EmptyVals(list.value.value.rec.fields) else []
  }

  lemma NormNothing(ls: seq<L.Field>, vs: seq<Val>)
    requires |ls| == |vs| && forall f :: f in ls ==> !f.Reserved? && !f.Flags?
    ensures C.NormAll(ls, vs) == vs
  {
    hide C.NormAll;
    forall i | 0 <= i < |ls| ensures C.NormAll(ls, vs)[i] == vs[i] {
      assert ls[i] in ls;
      NormSame(ls, vs, i);
    }
  }

  lemma {:induction false} RecsNormNothing(rec: L.Rec, recs: seq<seq<Val>>)
    requires C.RecsFit(rec, recs) && forall f :: f in rec.fields ==> !f.Reserved? && !f.Flags?
    ensures C.RecsNorm(rec, recs) == recs
    decreases |recs|
  {
    hide C.NormAll;
    if recs != [] {
      NormNothing(rec.fields, recs[0]);
      RecsNormNothing(rec, recs[1..]);
    }
  }

  lemma RecordFrom(c: Context, l: Lists, item: L.Item, v: seq<Val>)
    requires ListMatches(l, Some(item)) && C.RecFits(item.rec, v) && c.count(v) <= UINT64_MAX
    requires l.Records? ==> RecordNeeds(c, l.rec, v)
    ensures RecordOk(c, l, v, EmptyVals(item.rec.fields))
  {
    hide KindNeeds, C.NormAll, C.Fits, FieldsOk, Fills, TableFits, Walked, Covered;
    var ls := item.rec.fields;
    if l.Records? {
      WalkedFits(OfFields(ls, 0), l.rec, false);
      assert ls[0..] == ls;
      NormNothing(ls, v);
      NoGaps(l.rec, ls, v);
      FieldsFrom(c, l.rec, ls, false, v);
    } else {
      assert C.Fits(ls[0], v[0]);
      ClockFits(v[0]);
    }
  }

  lemma ClockFits(v: Val)
    requires C.Fits(L.Oct(8), v)
    ensures v.Bytes? && |v.b| == 8
  {
  }

  lemma NoGaps(fs: seq<Field>, ls: seq<L.Field>, vs: seq<Val>)
    requires TableFits(fs, ls, false) && |ls| == |vs|
    ensures UnnamedZero(fs, ls, vs)
  {
    hide Covered;
  }

  lemma NeedsIgnoreCount(c: Context, n: nat, kind: Kind, vs: seq<Val>, at: nat)
    ensures KindNeeds(WithCount(c, n), kind, vs, at) == KindNeeds(c, kind, vs, at)
  {
    hide Unescaped, NameOf, FlagVal, NamedBits, BitSet;
    if kind.Struct? {
      forall q | 0 <= q < |kind.parts|
        ensures SimpleNeeds(WithCount(c, n), kind.parts[q], vs, at + q) == SimpleNeeds(c, kind.parts[q], vs, at + q)
      {
      }
    }
  }

  lemma FieldsNeedIgnoreCount(c: Context, n: nat, fs: seq<Field>, ls: seq<L.Field>, vs: seq<Val>)
    requires FieldsNeed(c, fs, ls, vs)
    ensures FieldsNeed(WithCount(c, n), fs, ls, vs)
  {
    hide KindNeeds, UnnamedZero;
    forall j | 0 <= j < |fs| ensures KindNeeds(WithCount(c, n), fs[j].kind, vs, fs[j].at) {
      NeedsIgnoreCount(c, n, fs[j].kind, vs, fs[j].at);
    }
  }

  /** The normalised TLV can be written, and the text is that of the TLV itself. */
  lemma DocFrom(c: Context, ch: L.Chain, sc: Schema, gaps: bool, ss: seq<C.Slot>)
    requires (forall v :: c.count(v) <= UINT64_MAX) && L.WellFormed(ch) && Matches(ch, sc, gaps)
    requires C.ChainFits(ch, ss) && Expressible(c, sc, Singles(ch), DocOf(ss))
    ensures var d, e := DocOf(ss), DocOf(C.ChainNorm(ch, ss));
      && ListOf(ch).Some? && DocOk(c, sc, e, BlankOf(ch), BlankRec(ch))
      && Within(sc.fields, |d.vals|) && InTable(sc.list, d.recs) && DocItems(c, sc, d) == DocItems(c, sc, e)
  {
    hide C.ChainFits, C.ChainNorm, C.NormAll, C.RecFits, L.WellFormed, KindMatches, KindNeeds, Walked, RecordOk, ItemsOf, ListItems;
    hide FieldsOk, Fills, RecordNeeds, UnnamedZero, Covered, Unnamed, C.RecsNorm;
    var d, ls, n := DocOf(ss), Singles(ch), |DocOf(ss).recs|;
    WalkedFits(OfChain(ch), sc.fields, gaps);
    DocMembers(ch, ss);
    DocList(ch, ss);
    DocEmpty(ch);
    var list := ListOf(ch).value;
    if list.Some? { RecsNormNothing(list.value.rec, d.recs); }
    FieldsNeedIgnoreCount(c, n, sc.fields, ls, d.vals);
    FieldsFrom(WithCount(c, n), sc.fields, ls, gaps, d.vals);
    forall i | 0 <= i < n ensures RecordOk(c, sc.list, d.recs[i], BlankRec(ch)) && InTable(sc.list, [d.recs[i]]) {
      RecordFrom(c, sc.list, list.value, d.recs[i]);
      RecordWithin(c, sc.list, d.recs[i], BlankRec(ch));
    }
    assert InTable(sc.list, d.recs) by {
      forall i | 0 <= i < n ensures sc.list.Records? ==> Within(sc.list.rec, |d.recs[i]|) { assert [d.recs[i]][0] == d.recs[i]; }
    }
    ItemsSame(WithCount(c, n), sc.fields, ls, d.vals, 0, ListItems(c, sc.list, d.recs, NamesOf(sc.fields)));
  }

  lemma RecordWithin(c: Context, l: Lists, v: seq<Val>, blank: seq<Val>)
    requires RecordOk(c, l, v, blank)
    ensures InTable(l, [v])
  {
  }

  /** The text that is written for a TLV is accepted, and reading it, from an empty TLV on,
      gives the normalised members and list. */
  ghost predicate ComesBack(c: Context, ch: L.Chain, sc: Schema, ss: seq<C.Slot>, base: nat, comments: bool)
    requires L.WellFormed(ch) && C.ChainFits(ch, ss)
  {
    && Within(sc.fields, |DocOf(ss).vals|) && InTable(sc.list, DocOf(ss).recs)
    && var r := ParseText(ContainerTo(Object(DocItems(c, sc, DocOf(ss))), 0, base, []), comments);
       && r.Tree? && r.json.JObject?
       && var back := ReadDoc(c, sc, r.json.members, BlankOf(ch), BlankRec(ch));
          back.Some? && SlotsOf(ch, back.value) == C.ChainNorm(ch, ss)
  }

  /** Whatever fits a dataField and can be expressed comes back through JSON, normalised, if the
      table matches. */
  lemma MatchedBack(c: Context, ch: L.Chain, sc: Schema, gaps: bool, ss: seq<C.Slot>, base: nat, comments: bool)
    requires ContextOk(c) && (forall v :: c.count(v) <= UINT64_MAX) && L.WellFormed(ch) && Matches(ch, sc, gaps)
    requires C.ChainFits(ch, ss) && Expressible(c, sc, Singles(ch), DocOf(ss))
    ensures ComesBack(c, ch, sc, ss, base, comments)
  {
    hide ContextOk, DocOk, Expressible, Matches, ReadDoc, ParseText, ContainerTo, DocItems, Within, InTable, C.ChainFits, C.ChainNorm;
    DocFrom(c, ch, sc, gaps, ss);
    C.ChainRebuild(ch, ss);
    SlotsBack(ch, C.ChainNorm(ch, ss));
    TypedBack(c, sc, DocOf(C.ChainNorm(ch, ss)), BlankOf(ch), BlankRec(ch), base, comments);
  }
}
