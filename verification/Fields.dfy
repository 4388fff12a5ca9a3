/**
 What is built, octet by octet: every kind of member, records with their lengths, and lists
 with their counts.
 */
module WireFields {
  import opened Octets
  import opened TlvLayout
  import opened TlvCodec
  import opened WireFormats
  import J = JsonMatching
  import JT = JsonText

  /** Integers are in network order, negative ones in two's complement, apart from the counters
      that are little endian. A text has its length in one octet and an address in two. */
  lemma FieldBuilt(f: Field, v: Val)
    requires Fits(f, v) && !f.Flags?
    ensures match f
      case U(w) => Enc(f, v) == Digits(v.n, w)
      case S(w) => Enc(f, v) == Digits(if v.n < 0 then v.n + Pow256(w) else v.n, w)
      case U48 => Enc(f, v) == Digits(v.n, 6)
      case Le64 => |Enc(f, v)| == 8 && forall i: nat :: i < 8 ==> Enc(f, v)[i] == v.n / Pow256(i) % 256
      case Oct(_) => Enc(f, v) == v.b
      case Text => Enc(f, v) == [|v.b|] + v.b
      case Blob => Enc(f, v) == Digits(|v.b|, 2) + v.b
      case Reserved => Enc(f, v) == [0]
      case Flags(_) => true
  {
    hide BigEndian, LittleEndian, Digits;
    match f
    case U(w) => DigitsAre(v.n, w);
    case S(w) => DigitsAre(ToUnsigned(v.n, w), w);
    case U48 =>
      DigitsAre(v.n, 6);
      FortyEight(v.n);
    case Le64 =>
      forall i: nat | i < 8 ensures LittleEndian(v.n, 8)[i] == v.n / Pow256(i) % 256 { LittleEndianAt(v.n, 8, i); }
    case Blob => DigitsAre(|v.b|, 2);
    case _ =>
  }

  /** Of flags those bits are sent that are set and have a name; where the only flag is the
      lowest, every value but 0 sends it. */
  lemma FlagsBuilt(mask: nat, v: Val, bit: nat)
    requires Fits(Flags(mask), v)
    ensures var b := Enc(Flags(mask), v);
      && |b| == 1
      && (mask > 1 ==> ((b[0] as nat) / JT.Two(bit) % 2 == 1 <==> v.n / JT.Two(bit) % 2 == 1 && mask / JT.Two(bit) % 2 == 1))
      && (mask <= 1 ==> b[0] == if v.n > 0 then 1 else 0)
  {
    hide BitAnd;
    BitAndBound(v.n, mask);
    J.AndBit(v.n, mask, bit);
  }

  /** A record that has a length starts with it, and it covers the length itself. */
  lemma RecordBuilt(rec: Rec, vs: seq<Val>)
    requires RecFits(rec, vs)
    ensures var b, n := RecEnc(rec, vs), if rec.selfSized then 2 else 0;
      && |b| == n + |EncAll(rec.fields, vs)| && b[n..] == EncAll(rec.fields, vs)
      && (rec.selfSized ==> b[..2] == Digits(|b|, 2))
  {
    hide BigEndian, Digits, EncAll;
    var body := EncAll(rec.fields, vs);
    DigitsAre(2 + |body|, 2);
    SplitPrefix(BigEndian(2 + |body|, 2), body);
  }

  /** Where the member with an index starts in its record. */
  function MemberAt(fs: seq<Field>, vs: seq<Val>, i: nat): nat
    requires FitsAll(fs, vs) && i <= |fs|
  {
    if i == 0 then 0 else MemberAt(fs, vs, i - 1) + |Enc(fs[i - 1], vs[i - 1])|
  }

  lemma {:induction false} MemberAtNext(fs: seq<Field>, vs: seq<Val>, i: nat)
    requires FitsAll(fs, vs) && 0 < i <= |fs|
    ensures MemberAt(fs, vs, i) == |Enc(fs[0], vs[0])| + MemberAt(fs[1..], vs[1..], i - 1)
    decreases i
  {
    hide Enc;
    if i > 1 { MemberAtNext(fs, vs, i - 1); }
  }

  /** The members of a record follow one another in their order. */
  lemma {:induction false} MembersBuilt(fs: seq<Field>, vs: seq<Val>, i: nat)
    requires FitsAll(fs, vs) && i < |fs|
    ensures var b, at, own := EncAll(fs, vs), MemberAt(fs, vs, i), Enc(fs[i], vs[i]);
      at + |own| <= |b| && b[at..at + |own|] == own
    ensures |EncAll(fs, vs)| == MemberAt(fs, vs, |fs|)
    decreases |fs|
  {
    hide Enc, MemberAt;
    var head, more := Enc(fs[0], vs[0]), EncAll(fs[1..], vs[1..]);
    MemberAtFirst(fs, vs);
    MemberAtNext(fs, vs, |fs|);
    if |fs| == 1 { MemberAtFirst(fs[1..], vs[1..]); } else { MembersBuilt(fs[1..], vs[1..], if i > 0 then i - 1 else 0); }
    if i > 0 {
      MemberAtNext(fs, vs, i);
      var at := MemberAt(fs[1..], vs[1..], i - 1);
      Behind(head, more, at, at + |Enc(fs[i], vs[i])|);
    }
  }

  lemma MemberAtFirst(fs: seq<Field>, vs: seq<Val>)
    requires FitsAll(fs, vs)
    ensures MemberAt(fs, vs, 0) == 0
  {
  }

  lemma Behind<T>(a: seq<T>, b: seq<T>, lo: nat, hi: nat)
    requires lo <= hi <= |b|
    ensures (a + b)[|a| + lo..|a| + hi] == b[lo..hi]
  {
  }

  /** A counted list has its number of records in front. */
  lemma CountBuilt(item: Item, recs: seq<seq<Val>>)
    requires item.Counted? && ItemFits(item, List(recs))
    ensures var b, w := ItemEnc(item, List(recs)), item.countWidth;
      |b| >= w && b[..w] == Digits(|recs|, w) && b[w..] == RecsEnc(item.rec, recs)
  {
    hide BigEndian, Digits, RecsEnc;
    DigitsAre(|recs|, item.countWidth);
    SplitPrefix(BigEndian(|recs|, item.countWidth), RecsEnc(item.rec, recs));
  }
}
