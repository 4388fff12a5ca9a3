/**
 What a chain of `proc` calls writes and reads, as functions on octet sequences,
 and the theorems that tie the two directions together.

 `Norm` is the value the receiver sees: flag octets are reduced to the bits of their
 mask and a reserved octet reads as zero. Everything else survives unchanged.
 */
module TlvCodec {
  import opened Octets
  import opened TlvLayout

  datatype Error =
    | OK | MSG | SIG | SMPTE | INVALID_ID | INVALID_TLV | MISMATCH_TLV | SIZE_MISS
    | TOO_SMALL | SIZE | VAL | HEADER | ACTION | UNSUPPORT | MEM | AUTH | AUTH_NONE
    | AUTH_WRONG | AUTH_NOKEY

  /** A member of a TLV structure: a number, or octets (text, address, array). */
  datatype Val = Num(n: int) | Bytes(b: seq<octet>)

  /** The value of one chain item. Lengths and counts are derived, hence not stored. */
  datatype Slot = Scalar(v: Val) | List(recs: seq<seq<Val>>)

  /** The outcome of reading: a value and the number of octets it took. */
  datatype Read<+T> = Got(val: T, used: nat) | Fail(err: Error)

  /** The errors reading can end with. */
  predicate ReadError(e: Error) { e == TOO_SMALL || e == SIZE_MISS }

  /** The outcome of reading a list whose first elements, `out`, took `used` octets. */
  function Prepend<T>(out: seq<T>, used: nat, r: Read<seq<T>>): Read<seq<T>> {
    match r
    case Fail(e) => Fail(e)
    case Got(vs, n) => Got(out + vs, used + n)
  }

  lemma PrependNone<T>(r: Read<seq<T>>)
    ensures Prepend([], 0, r) == r
  {
    if r.Got? { assert [] + r.val == r.val; }
  }

  lemma PrependMore<T>(out: seq<T>, used: nat, v: T, n: nat, r: Read<seq<T>>)
    ensures Prepend(out, used, Prepend([v], n, r)) == Prepend(out + [v], used + n, r)
  {
    if r.Got? { SplitThree(out, [v], r.val); }
  }

  // ---------------------------------------------------------------- fields

  /** What the C++ member can hold. */
  ghost predicate Typed(f: Field, v: Val) {
    match f
    case U(w) => v.Num? && 0 <= v.n < Pow256(w)
    case S(w) => v.Num? && SignedRange(v.n, w)
    case U48 => v.Num? && 0 <= v.n < Pow256(8)
    case Le64 => v.Num? && 0 <= v.n < Pow256(8)
    case Oct(k) => v.Bytes? && |v.b| == k
    case Text => v.Bytes?
    case Blob => v.Bytes? && |v.b| < Pow256(2)
    case Reserved => true
    case Flags(_) => v.Num? && 0 <= v.n < 256
  }

  /** What the wire field can hold as well. */
  ghost predicate Fits(f: Field, v: Val) {
    && Typed(f, v)
    && (f.U48? ==> v.n < Pow256(6))
    && (f.Text? ==> |v.b| < 256)
  }

  function NormFlags(mask: nat, n: nat): nat {
    if mask > 1 then BitAnd(n, mask) else if n > 0 then 1 else n
  }

  function Norm(f: Field, v: Val): Val {
    match f
    case Flags(mask) => if v.Num? && v.n >= 0 then Num(NormFlags(mask, v.n)) else v
    case Reserved => Num(0)
    case _ => v
  }

  /** The octets a build writes for a field. */
  function Enc(f: Field, v: Val): (b: seq<octet>)
    requires Fits(f, v)
  {
    match f
    case U(w) => BigEndian(v.n, w)
    case S(w) => BigEndian(ToUnsigned(v.n, w), w)
    case U48 => BigEndian(v.n / Pow256(4), 2) + BigEndian(v.n % Pow256(4), 4)
    case Le64 => LittleEndian(v.n, 8)
    case Oct(_) => v.b
    case Text => [|v.b|] + v.b
    case Blob => BigEndian(|v.b|, 2) + v.b
    case Reserved => [0]
    case Flags(mask) => BitAndBound(v.n, mask); [NormFlags(mask, v.n)]
  }

  /** Reading one field from the octets that are left. */
  function Parse(f: Field, rest: seq<octet>): (r: Read<Val>)
    ensures r.Got? ==> r.used <= |rest|
    ensures r.Fail? ==> r.err == TOO_SMALL
  {
    match f
    case U(w) => if |rest| < w then Fail(TOO_SMALL) else Got(Num(FromBigEndian(rest[..w])), w)
    case S(w) =>
      if |rest| < w then Fail(TOO_SMALL) else Got(Num(ToSigned(FromBigEndian(rest[..w]), w)), w)
    case U48 =>
      if |rest| < 6 then Fail(TOO_SMALL)
      else Got(Num(FromBigEndian(rest[2..6]) + Pow256(4) * FromBigEndian(rest[..2])), 6)
    case Le64 => if |rest| < 8 then Fail(TOO_SMALL) else Got(Num(FromLittleEndian(rest[..8])), 8)
    case Oct(k) => if |rest| < k then Fail(TOO_SMALL) else Got(Bytes(rest[..k]), k)
    case Text =>
      if |rest| < 1 || |rest| - 1 < rest[0] then Fail(TOO_SMALL)
      else var len: nat := rest[0]; Got(Bytes(rest[1..1 + len]), 1 + len)
    case Blob =>
      if |rest| < 2 || |rest| - 2 < FromBigEndian(rest[..2]) then Fail(TOO_SMALL)
      else var len := FromBigEndian(rest[..2]); Got(Bytes(rest[2..2 + len]), 2 + len)
    case Reserved => if |rest| < 1 then Fail(TOO_SMALL) else Got(Num(0), 1)
    case Flags(_) => if |rest| < 1 then Fail(TOO_SMALL) else Got(Num(rest[0]), 1)
  }

  lemma Pow256Values()
    ensures Pow256(1) == 0x100
    ensures Pow256(2) == 0x1_0000
    ensures Pow256(4) == 0x1_0000_0000
    ensures Pow256(6) == 0x1_0000_0000_0000
    ensures Pow256(8) == 0x1_0000_0000_0000_0000
  {
    assert Pow256(3) == 256 * Pow256(2);
    assert Pow256(5) == 256 * Pow256(4);
    assert Pow256(7) == 256 * Pow256(6);
  }

  lemma SplitPrefix<T>(a: seq<T>, b: seq<T>)
    ensures (a + b)[..|a|] == a && (a + b)[|a|..] == b
  {
  }

  /** A sequence built from three parts, cut after the first one. */
  lemma SplitThree<T>(a: seq<T>, b: seq<T>, c: seq<T>)
    ensures (a + b) + c == a + (b + c)
    ensures ((a + b) + c)[..|a|] == a && ((a + b) + c)[|a|..] == b + c
  {
  }

  lemma FieldRoundTrip(f: Field, v: Val, tail: seq<octet>)
    requires Fits(f, v)
    ensures Parse(f, Enc(f, v) + tail) == Got(Norm(f, v), |Enc(f, v)|)
  {
    hide BigEndian, FromBigEndian, LittleEndian, FromLittleEndian, BitAnd, Pow256;
    var all := Enc(f, v) + tail;
    Pow256Values();
    match f
    case U(w) => BigEndianRoundTrip(v.n, w); SplitPrefix(Enc(f, v), tail);
    case S(w) => BigEndianRoundTrip(ToUnsigned(v.n, w), w); SplitPrefix(Enc(f, v), tail);
    case U48 =>
      var hi, lo := BigEndian(v.n / Pow256(4), 2), BigEndian(v.n % Pow256(4), 4);
      BigEndianRoundTrip(v.n / Pow256(4), 2);
      BigEndianRoundTrip(v.n % Pow256(4), 4);
      assert all[..2] == hi && all[2..6] == lo;
    case Le64 => LittleEndianRoundTrip(v.n, 8); SplitPrefix(Enc(f, v), tail);
    case Oct(_) => SplitPrefix(v.b, tail);
    case Text => assert all[1..1 + |v.b|] == v.b;
    case Blob =>
      BigEndianRoundTrip(|v.b|, 2);
      assert all[..2] == BigEndian(|v.b|, 2);
      assert all[2..2 + |v.b|] == v.b;
    case Reserved =>
    case Flags(_) =>
  }

  lemma U48Reparse(rest: seq<octet>)
    requires |rest| >= 6
    ensures var v := Parse(U48, rest).val; Fits(U48, v) && Enc(U48, v) == rest[..6]
  {
    Pow256Values();
    FromBigEndianRoundTrip(rest[..2]);
    FromBigEndianRoundTrip(rest[2..6]);
    assert rest[..6] == rest[..2] + rest[2..6];
    var hi, lo := FromBigEndian(rest[..2]), FromBigEndian(rest[2..6]);
    assert (lo + 0x1_0000_0000 * hi) / 0x1_0000_0000 == hi;
  }

  lemma BlobReparse(rest: seq<octet>)
    requires Parse(Blob, rest).Got?
    ensures var r := Parse(Blob, rest); Fits(Blob, r.val) && Enc(Blob, r.val) == rest[..r.used]
  {
    FromBigEndianRoundTrip(rest[..2]);
    var len := FromBigEndian(rest[..2]);
    assert rest[..2 + len] == rest[..2] + rest[2..2 + len];
  }

  lemma TextReparse(rest: seq<octet>)
    requires Parse(Text, rest).Got?
    ensures var r := Parse(Text, rest); Fits(Text, r.val) && Enc(Text, r.val) == rest[..r.used]
  {
    var len: nat := rest[0];
    assert rest[..1 + len] == [rest[0]] + rest[1..1 + len];
  }

  /** What parse accepts, build can write again, into as many octets. */
  lemma FieldReparse(f: Field, rest: seq<octet>)
    requires Parse(f, rest).Got?
    ensures var r := Parse(f, rest);
      && Fits(f, r.val)
      && |Enc(f, r.val)| == r.used
      && (!f.Reserved? && !f.Flags? ==> Enc(f, r.val) == rest[..r.used])
  {
    hide BitAnd, FromBigEndian, BigEndian, FromLittleEndian, LittleEndian;
    match f
    case U(w) => FromBigEndianRoundTrip(rest[..w]);
    case S(w) => FromBigEndianRoundTrip(rest[..w]);
    case U48 => U48Reparse(rest);
    case Le64 => FromLittleEndianRoundTrip(rest[..8]);
    case Oct(_) =>
    case Text => TextReparse(rest);
    case Blob => BlobReparse(rest);
    case Reserved =>
    case Flags(_) =>
  }

  lemma FieldNormStable(f: Field, v: Val)
    requires Fits(f, v)
    ensures Fits(f, Norm(f, v)) && Enc(f, Norm(f, v)) == Enc(f, v)
    ensures Norm(f, Norm(f, v)) == Norm(f, v)
  {
    if f.Flags? {
      BitAndBound(v.n, f.mask);
      BitAndIdempotent(v.n, f.mask);
    }
  }

  // ---------------------------------------------------------------- records

  ghost predicate FitsAll(fs: seq<Field>, vs: seq<Val>) {
    |fs| == |vs| && forall i :: 0 <= i < |fs| ==> Fits(fs[i], vs[i])
  }

  function NormAll(fs: seq<Field>, vs: seq<Val>): (r: seq<Val>)
    requires |fs| == |vs|
    ensures |r| == |vs|
  {
    if fs == [] then [] else [Norm(fs[0], vs[0])] + NormAll(fs[1..], vs[1..])
  }

  function EncAll(fs: seq<Field>, vs: seq<Val>): seq<octet>
    requires FitsAll(fs, vs)
  {
    if fs == [] then [] else Enc(fs[0], vs[0]) + EncAll(fs[1..], vs[1..])
  }

  function ParseAll(fs: seq<Field>, rest: seq<octet>): (r: Read<seq<Val>>)
    ensures r.Got? ==> r.used <= |rest| && |r.val| == |fs|
    ensures r.Fail? ==> r.err == TOO_SMALL
  {
    if fs == [] then Got([], 0)
    else
      match Parse(fs[0], rest)
      case Fail(e) => Fail(e)
      case Got(v, n) => Prepend([v], n, ParseAll(fs[1..], rest[n..]))
  }

  lemma {:induction false} AllRoundTrip(fs: seq<Field>, vs: seq<Val>, tail: seq<octet>)
    requires FitsAll(fs, vs)
    ensures ParseAll(fs, EncAll(fs, vs) + tail) == Got(NormAll(fs, vs), |EncAll(fs, vs)|)
    decreases |fs|
  {
    if fs != [] {
      var head, more := Enc(fs[0], vs[0]), EncAll(fs[1..], vs[1..]);
      SplitThree(head, more, tail);
      FieldRoundTrip(fs[0], vs[0], more + tail);
      AllRoundTrip(fs[1..], vs[1..], tail);
    }
  }

  lemma {:induction false} AllReparse(fs: seq<Field>, rest: seq<octet>)
    requires ParseAll(fs, rest).Got?
    ensures var r := ParseAll(fs, rest);
      && FitsAll(fs, r.val)
      && |EncAll(fs, r.val)| == r.used
    decreases |fs|
  {
    if fs != [] {
      FieldReparse(fs[0], rest);
      var n := Parse(fs[0], rest).used;
      AllReparse(fs[1..], rest[n..]);
      var r := ParseAll(fs, rest).val;
      assert r[1..] == ParseAll(fs[1..], rest[n..]).val;
    }
  }

  lemma {:induction false} AllNormStable(fs: seq<Field>, vs: seq<Val>)
    requires FitsAll(fs, vs)
    ensures FitsAll(fs, NormAll(fs, vs)) && EncAll(fs, NormAll(fs, vs)) == EncAll(fs, vs)
    ensures NormAll(fs, NormAll(fs, vs)) == NormAll(fs, vs)
    decreases |fs|
  {
    if fs != [] {
      FieldNormStable(fs[0], vs[0]);
      AllNormStable(fs[1..], vs[1..]);
      assert NormAll(fs, vs)[1..] == NormAll(fs[1..], vs[1..]);
    }
  }

  /** The wire size of a self-sized record must fit the 16 bits that announce it. */
  ghost predicate RecFits(rec: Rec, vs: seq<Val>) {
    FitsAll(rec.fields, vs) && (rec.selfSized ==> 2 + |EncAll(rec.fields, vs)| < Pow256(2))
  }

  function RecEnc(rec: Rec, vs: seq<Val>): seq<octet>
    requires RecFits(rec, vs)
  {
    var body := EncAll(rec.fields, vs);
    if rec.selfSized then BigEndian(2 + |body|, 2) + body else body
  }

  function RecParse(rec: Rec, rest: seq<octet>): (r: Read<seq<Val>>)
    ensures r.Got? ==> r.used <= |rest| && |r.val| == |rec.fields|
    ensures r.Fail? ==> ReadError(r.err)
  {
    if !rec.selfSized then ParseAll(rec.fields, rest)
    else if |rest| < 2 then Fail(TOO_SMALL)
    else
      match ParseAll(rec.fields, rest[2..])
      case Fail(e) => Fail(e)
      case Got(vs, n) => if FromBigEndian(rest[..2]) != 2 + n then Fail(SIZE_MISS) else Got(vs, 2 + n)
  }

  lemma RecRoundTrip(rec: Rec, vs: seq<Val>, tail: seq<octet>)
    requires RecFits(rec, vs)
    ensures RecParse(rec, RecEnc(rec, vs) + tail)
         == Got(NormAll(rec.fields, vs), |RecEnc(rec, vs)|)
  {
    AllRoundTrip(rec.fields, vs, tail);
    if rec.selfSized {
      var body := EncAll(rec.fields, vs);
      var all := RecEnc(rec, vs) + tail;
      BigEndianRoundTrip(2 + |body|, 2);
      SplitThree(BigEndian(2 + |body|, 2), body, tail);
    }
  }

  lemma RecReparse(rec: Rec, rest: seq<octet>)
    requires RecParse(rec, rest).Got?
    ensures var r := RecParse(rec, rest); RecFits(rec, r.val) && |RecEnc(rec, r.val)| == r.used
  {
    if rec.selfSized {
      AllReparse(rec.fields, rest[2..]);
      FromBigEndianRoundTrip(rest[..2]);
    } else {
      AllReparse(rec.fields, rest);
    }
  }

  /** The `size()` functions of the structures: a length known from the values alone. */
  function FieldLength(f: Field, v: Val): nat {
    match f
    case Text => if v.Bytes? then 1 + |v.b| else 0
    case Blob => if v.Bytes? then 2 + |v.b| else 0
    case _ => FieldSize(f)
  }

  function FieldsLength(fs: seq<Field>, vs: seq<Val>): nat
    requires |fs| == |vs|
  {
    if fs == [] then 0 else FieldLength(fs[0], vs[0]) + FieldsLength(fs[1..], vs[1..])
  }

  lemma {:induction false} FieldsLengthAgrees(fs: seq<Field>, vs: seq<Val>)
    requires FitsAll(fs, vs)
    ensures FieldsLength(fs, vs) == |EncAll(fs, vs)|
    decreases |fs|
  {
    if fs != [] {
      FieldsLengthAgrees(fs[1..], vs[1..]);
    }
  }

  // ---------------------------------------------------------------- lists

  ghost predicate RecsFit(rec: Rec, recs: seq<seq<Val>>) {
    forall i :: 0 <= i < |recs| ==> RecFits(rec, recs[i])
  }

  function RecsNorm(rec: Rec, recs: seq<seq<Val>>): (r: seq<seq<Val>>)
    requires forall i :: 0 <= i < |recs| ==> |recs[i]| == |rec.fields|
    ensures |r| == |recs|
  {
    if recs == [] then [] else [NormAll(rec.fields, recs[0])] + RecsNorm(rec, recs[1..])
  }

  function RecsEnc(rec: Rec, recs: seq<seq<Val>>): seq<octet>
    requires RecsFit(rec, recs)
  {
    if recs == [] then [] else RecEnc(rec, recs[0]) + RecsEnc(rec, recs[1..])
  }

  /** `vector_f`: exactly `count` records. */
  function CountedParse(rec: Rec, count: nat, rest: seq<octet>): (r: Read<seq<seq<Val>>>)
    ensures r.Got? ==> r.used <= |rest| && |r.val| == count
    ensures r.Fail? ==> ReadError(r.err)
    decreases count
  {
    if count == 0 then Got([], 0)
    else
      match RecParse(rec, rest)
      case Fail(e) => Fail(e)
      case Got(v, n) => Prepend([v], n, CountedParse(rec, count - 1, rest[n..]))
  }

  lemma {:induction false} FixedParse(fs: seq<Field>, rest: seq<octet>)
    requires forall f :: f in fs ==> !f.Text? && !f.Blob?
    ensures ParseAll(fs, rest).Got? <==> |rest| >= FieldsSize(fs)
    ensures ParseAll(fs, rest).Got? ==> ParseAll(fs, rest).used == FieldsSize(fs)
    decreases |fs|
  {
    if fs != [] {
      var r := Parse(fs[0], rest);
      assert fs[0] in fs;
      if r.Got? {
        assert r.used == FieldSize(fs[0]);
        FixedParse(fs[1..], rest[r.used..]);
      }
    }
  }

  /** `vector_o`: as long as a whole record is left. */
  function RestParse(rec: Rec, rest: seq<octet>): (r: Read<seq<seq<Val>>>)
    requires FixedRec(rec)
    ensures r.Got? && r.used <= |rest|
    decreases |rest|
  {
    if |rest| < FieldsSize(rec.fields) then Got([], 0)
    else
      FixedParse(rec.fields, rest);
      var one := RecParse(rec, rest);
      Prepend([one.val], one.used, RestParse(rec, rest[one.used..]))
  }

  lemma {:induction false} CountedRoundTrip(rec: Rec, recs: seq<seq<Val>>, tail: seq<octet>)
    requires RecsFit(rec, recs)
    ensures CountedParse(rec, |recs|, RecsEnc(rec, recs) + tail)
         == Got(RecsNorm(rec, recs), |RecsEnc(rec, recs)|)
    decreases |recs|
  {
    hide RecEnc, RecParse, NormAll, RecFits;
    if recs != [] {
      var head, more := RecEnc(rec, recs[0]), RecsEnc(rec, recs[1..]);
      SplitThree(head, more, tail);
      RecRoundTrip(rec, recs[0], more + tail);
      CountedRoundTrip(rec, recs[1..], tail);
    }
  }

  lemma {:induction false} RestRoundTrip(rec: Rec, recs: seq<seq<Val>>, tail: seq<octet>)
    requires FixedRec(rec) && RecsFit(rec, recs) && |tail| < FieldsSize(rec.fields)
    ensures RestParse(rec, RecsEnc(rec, recs) + tail)
         == Got(RecsNorm(rec, recs), |RecsEnc(rec, recs)|)
    decreases |recs|
  {
    if recs == [] {
      assert [] + tail == tail;
    } else {
      var head, more := RecEnc(rec, recs[0]), RecsEnc(rec, recs[1..]);
      var all := RecsEnc(rec, recs) + tail;
      SplitThree(head, more, tail);
      RecRoundTrip(rec, recs[0], more + tail);
      FixedParse(rec.fields, all);
      RestRoundTrip(rec, recs[1..], tail);
    }
  }

  lemma {:induction false} CountedReparse(rec: Rec, count: nat, rest: seq<octet>)
    requires CountedParse(rec, count, rest).Got?
    ensures var r := CountedParse(rec, count, rest);
      RecsFit(rec, r.val) && |RecsEnc(rec, r.val)| == r.used
    decreases count
  {
    if count > 0 {
      RecReparse(rec, rest);
      var n := RecParse(rec, rest).used;
      CountedReparse(rec, count - 1, rest[n..]);
      var r := CountedParse(rec, count, rest).val;
      assert r[1..] == CountedParse(rec, count - 1, rest[n..]).val;
    }
  }

  lemma {:induction false} RestReparse(rec: Rec, rest: seq<octet>)
    requires FixedRec(rec)
    ensures var r := RestParse(rec, rest);
      && RecsFit(rec, r.val)
      && |RecsEnc(rec, r.val)| == r.used
      && |rest| - r.used < FieldsSize(rec.fields)
    decreases |rest|
  {
    if |rest| >= FieldsSize(rec.fields) {
      FixedParse(rec.fields, rest);
      RecReparse(rec, rest);
      var n := RecParse(rec, rest).used;
      RestReparse(rec, rest[n..]);
      var r := RestParse(rec, rest).val;
      assert r[1..] == RestParse(rec, rest[n..]).val;
    }
  }

  lemma {:induction false} RecsNormStable(rec: Rec, recs: seq<seq<Val>>)
    requires RecsFit(rec, recs)
    ensures RecsFit(rec, RecsNorm(rec, recs)) && RecsEnc(rec, RecsNorm(rec, recs)) == RecsEnc(rec, recs)
    ensures RecsNorm(rec, RecsNorm(rec, recs)) == RecsNorm(rec, recs)
    decreases |recs|
  {
    if recs != [] {
      AllNormStable(rec.fields, recs[0]);
      RecsNormStable(rec, recs[1..]);
      assert RecsNorm(rec, recs)[1..] == RecsNorm(rec, recs[1..]);
    }
  }

  // ---------------------------------------------------------------- chains

  function CountLimit(item: Item): nat
    requires item.Counted?
  {
    if item.signedCount then Pow256(item.countWidth) / 2 else Pow256(item.countWidth)
  }

  /** More octets than any message has, whose length is told by 16 bits. */
  const MESSAGES := 0xffff_0000

  /** The loop bound of `vector_f`: a negative count turns into a huge `uint32_t`. */
  function LoopCount(item: Item, c: nat): nat
    requires item.Counted?
  {
    if c < CountLimit(item) || c + Pow256(4) < Pow256(item.countWidth) then c
    else c + Pow256(4) - Pow256(item.countWidth)
  }

  ghost predicate ItemFits(item: Item, s: Slot) {
    match item
    case One(f) => s.Scalar? && Fits(f, s.v)
    case Counted(_, _, rec) => s.List? && |s.recs| < CountLimit(item) && RecsFit(rec, s.recs)
    case Rest(rec) => s.List? && RecsFit(rec, s.recs)
  }

  function ItemNorm(item: Item, s: Slot): Slot
    requires ItemFits(item, s)
  {
    match item
    case One(f) => Scalar(Norm(f, s.v))
    case _ => List(RecsNorm(item.rec, s.recs))
  }

  function ItemEnc(item: Item, s: Slot): seq<octet>
    requires ItemFits(item, s)
  {
    match item
    case One(f) => Enc(f, s.v)
    case Counted(w, _, rec) => BigEndian(|s.recs|, w) + RecsEnc(rec, s.recs)
    case Rest(rec) => RecsEnc(rec, s.recs)
  }

  function ItemParse(item: Item, rest: seq<octet>): (r: Read<Slot>)
    requires WellFormedItem(item)
    ensures r.Got? ==> r.used <= |rest|
    ensures r.Fail? ==> ReadError(r.err)
  {
    match item
    case One(f) =>
      (match Parse(f, rest)
       case Fail(e) => Fail(e)
       case Got(v, n) => Got(Scalar(v), n))
    case Counted(w, _, rec) =>
      if |rest| < w then Fail(TOO_SMALL)
      else
        (match CountedParse(rec, LoopCount(item, FromBigEndian(rest[..w])), rest[w..])
         case Fail(e) => Fail(e)
         case Got(vs, n) => Got(List(vs), w + n))
    case Rest(rec) => var r := RestParse(rec, rest); Got(List(r.val), r.used)
  }

  ghost predicate ChainFits(c: Chain, ss: seq<Slot>) {
    match c
    case End => ss == []
    case Proc(item, next) => |ss| > 0 && ItemFits(item, ss[0]) && ChainFits(next, ss[1..])
  }

  function ChainNorm(c: Chain, ss: seq<Slot>): seq<Slot>
    requires ChainFits(c, ss)
  {
    match c
    case End => []
    case Proc(item, next) => [ItemNorm(item, ss[0])] + ChainNorm(next, ss[1..])
  }

  function ChainEnc(c: Chain, ss: seq<Slot>): seq<octet>
    requires ChainFits(c, ss)
  {
    match c
    case End => []
    case Proc(item, next) => ItemEnc(item, ss[0]) + ChainEnc(next, ss[1..])
  }

  function ChainParse(c: Chain, rest: seq<octet>): (r: Read<seq<Slot>>)
    requires WellFormed(c)
    ensures r.Got? ==> r.used <= |rest|
    ensures r.Fail? ==> ReadError(r.err)
  {
    match c
    case End => Got([], 0)
    case Proc(item, next) =>
      match ItemParse(item, rest)
      case Fail(e) => Fail(e)
      case Got(s, n) => Prepend([s], n, ChainParse(next, rest[n..]))
  }

  /** Octets that may follow a dataField without being taken for part of it. */
  predicate Tail(c: Chain, tail: seq<octet>) {
    match c
    case End => true
    case Proc(item, next) =>
      if item.Rest? then |tail| < FieldsSize(item.rec.fields) else Tail(next, tail)
  }

  lemma ItemRoundTrip(item: Item, s: Slot, tail: seq<octet>)
    requires WellFormedItem(item) && ItemFits(item, s)
    requires item.Rest? ==> |tail| < FieldsSize(item.rec.fields)
    ensures ItemParse(item, ItemEnc(item, s) + tail) == Got(ItemNorm(item, s), |ItemEnc(item, s)|)
  {
    match item
    case One(f) => FieldRoundTrip(f, s.v, tail);
    case Counted(w, _, rec) =>
      var all := ItemEnc(item, s) + tail;
      BigEndianRoundTrip(|s.recs|, w);
      SplitThree(BigEndian(|s.recs|, w), RecsEnc(rec, s.recs), tail);
      CountedRoundTrip(rec, s.recs, tail);
    case Rest(rec) => RestRoundTrip(rec, s.recs, tail);
  }

  /** Building a dataField and parsing it yields the normalised value and takes exactly
      the octets written, whatever follows them. */
  lemma {:induction false} ChainRoundTrip(c: Chain, ss: seq<Slot>, tail: seq<octet>)
    requires WellFormed(c) && ChainFits(c, ss) && Tail(c, tail)
    ensures ChainParse(c, ChainEnc(c, ss) + tail) == Got(ChainNorm(c, ss), |ChainEnc(c, ss)|)
    decreases c
  {
    match c
    case End =>
    case Proc(item, next) =>
      var head, more := ItemEnc(item, ss[0]), ChainEnc(next, ss[1..]);
      SplitThree(head, more, tail);
      if item.Rest? { assert more == []; }
      ItemRoundTrip(item, ss[0], more + tail);
      ChainRoundTrip(next, ss[1..], tail);
  }

  lemma {:induction false} ParseTakes(fs: seq<Field>, rest: seq<octet>)
    requires ParseAll(fs, rest).Got?
    ensures ParseAll(fs, rest).used >= FieldsLeast(fs)
    decreases |fs|
  {
    hide FromBigEndian, FromLittleEndian;
    if fs != [] {
      var n := Parse(fs[0], rest).used;
      assert n >= FieldLeast(fs[0]);
      ParseTakes(fs[1..], rest[n..]);
    }
  }

  lemma RecTakes(rec: Rec, rest: seq<octet>)
    requires RecParse(rec, rest).Got?
    ensures RecParse(rec, rest).used >= RecLeast(rec)
  {
    hide ParseAll, FieldsLeast, FromBigEndian;
    ParseTakes(rec.fields, if rec.selfSized then rest[2..] else rest);
  }

  /** If every record takes an octet, no more records are parsed than there are octets. */
  lemma {:induction false} CountedTakes(rec: Rec, count: nat, rest: seq<octet>)
    requires RecLeast(rec) > 0 && CountedParse(rec, count, rest).Got?
    ensures count <= CountedParse(rec, count, rest).used
    decreases count
  {
    hide RecParse, RecLeast;
    if count > 0 {
      RecTakes(rec, rest);
      CountedTakes(rec, count - 1, rest[RecParse(rec, rest).used..]);
    }
  }

  /** A count that is read as negative asks for more records than any message can hold. */
  lemma NegativeCountFails(item: Item, rest: seq<octet>)
    requires WellFormedItem(item) && item.Counted? && item.countWidth <= |rest| < MESSAGES
    requires FromBigEndian(rest[..item.countWidth]) >= CountLimit(item)
    ensures ItemParse(item, rest).Fail?
  {
    hide RecParse, CountedParse, FieldsLeast;
    var w := item.countWidth;
    var c := FromBigEndian(rest[..w]);
    FromBigEndianRoundTrip(rest[..w]);
    Pow256Values();
    var n := LoopCount(item, c);
    assert n >= MESSAGES;
    if CountedParse(item.rec, n, rest[w..]).Got? { CountedTakes(item.rec, n, rest[w..]); }
  }

  /** Whatever is parsed can be built again, into as many octets. */
  lemma ItemReparse(item: Item, rest: seq<octet>)
    requires WellFormedItem(item) && ItemParse(item, rest).Got? && |rest| < MESSAGES
    ensures var r := ItemParse(item, rest); ItemFits(item, r.val) && |ItemEnc(item, r.val)| == r.used
  {
    match item
    case One(f) => FieldReparse(f, rest);
    case Counted(w, _, rec) =>
      if FromBigEndian(rest[..w]) >= CountLimit(item) { NegativeCountFails(item, rest); }
      CountedReparse(rec, FromBigEndian(rest[..w]), rest[w..]);
    case Rest(rec) => RestReparse(rec, rest);
  }

  lemma {:induction false} TailNone(c: Chain)
    requires WellFormed(c)
    ensures Tail(c, [])
    decreases c
  {
    if c.Proc? { TailNone(c.next); }
  }

  /** Every dataField that is parsed can be built again into as many octets, and what is built
      is parsed as the normalised value. */
  lemma {:induction false} ChainReparse(c: Chain, rest: seq<octet>)
    requires WellFormed(c) && ChainParse(c, rest).Got? && |rest| < MESSAGES
    ensures var r := ChainParse(c, rest);
      && ChainFits(c, r.val)
      && |ChainEnc(c, r.val)| == r.used
      && ChainParse(c, ChainEnc(c, r.val)) == Got(ChainNorm(c, r.val), r.used)
    decreases c
  {
    hide ItemParse, ItemFits, ItemEnc, ItemNorm;
    var r := ChainParse(c, rest).val;
    if c.Proc? {
      ItemReparse(c.item, rest);
      var n := ItemParse(c.item, rest).used;
      ChainReparse(c.next, rest[n..]);
      assert r[1..] == ChainParse(c.next, rest[n..]).val;
    }
    TailNone(c);
    ChainRoundTrip(c, r, []);
    assert ChainEnc(c, r) + [] == ChainEnc(c, r);
  }

  lemma ItemNormStable(item: Item, s: Slot)
    requires ItemFits(item, s)
    ensures ItemFits(item, ItemNorm(item, s)) && ItemEnc(item, ItemNorm(item, s)) == ItemEnc(item, s)
  {
    match item
    case One(f) => FieldNormStable(f, s.v);
    case Counted(_, _, rec) => RecsNormStable(rec, s.recs);
    case Rest(rec) => RecsNormStable(rec, s.recs);
  }

  /** Rebuilding what was parsed gives identical octets. */
  lemma {:induction false} ChainRebuild(c: Chain, ss: seq<Slot>)
    requires ChainFits(c, ss)
    ensures ChainFits(c, ChainNorm(c, ss)) && ChainEnc(c, ChainNorm(c, ss)) == ChainEnc(c, ss)
    decreases c
  {
    match c
    case End =>
    case Proc(item, next) =>
      ItemNormStable(item, ss[0]);
      ChainRebuild(next, ss[1..]);
      assert ChainNorm(c, ss)[1..] == ChainNorm(next, ss[1..]);
  }
}
