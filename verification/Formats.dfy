/**
 The bodies of the TLVs that are received, octet by octet: for each type the widths of its
 members, and what is stored of them.
 */
module WireFormats {
  import opened Octets
  import opened TlvLayout
  import opened TlvCodec
  import opened TlvSizes
  import opened Framing
  import opened Signalling
  import opened Receiving

  /** A member in network order: unsigned, signed, octets, a text behind its length, octets
      behind a length of 16 bits, an octet that is ignored, flags. */
  datatype Member = N(width: nat) | Z(width: nat) | Raw(count: nat) | Str | Addr | Skip | Bits

  /** The digits of a number to the base 256, the highest first. */
  function Digits(v: nat, w: nat): (b: seq<octet>)
    ensures |b| == w
  {
    seq(w, i requires 0 <= i < w => v / Pow256(w - 1 - i) % 256)
  }

  predicate Holds(m: Member, v: Val) {
    match m
    case N(w) => v.Num? && 0 <= v.n < Pow256(w)
    case Z(w) => v.Num? && 0 <= 2 * v.n + Pow256(w) && 2 * v.n < Pow256(w)
    case Raw(k) => v.Bytes? && |v.b| == k
    case Str => v.Bytes? && |v.b| < 0x100
    case Addr => v.Bytes? && |v.b| < 0x1_0000
    case _ => v.Num? && 0 <= v.n < 0x100
  }

  function Written(m: Member, v: Val): seq<octet>
    requires Holds(m, v)
  {
    match m
    case N(w) => Digits(v.n, w)
    case Z(w) => Digits(if v.n < 0 then v.n + Pow256(w) else v.n, w)
    case Raw(_) => v.b
    case Str => [|v.b|] + v.b
    case Addr => Digits(|v.b|, 2) + v.b
    case Skip => [v.n]
    case Bits => [v.n]
  }

  function AsRead(m: Member, v: Val): Val { if m.Skip? then Num(0) else v }

  /** The call that reads a member. Masks only count on build. */
  predicate Reads(f: Field, m: Member) {
    match m
    case N(w) => f == U(w) || (w == 6 && f.U48?)
    case Z(w) => f == S(w)
    case Raw(k) => f == Oct(k)
    case Str => f.Text?
    case Addr => f.Blob?
    case Skip => f.Reserved?
    case Bits => f.Flags?
  }

  lemma DigitsAre(v: nat, w: nat)
    ensures Digits(v, w) == BigEndian(v, w)
  {
    forall i | 0 <= i < w ensures Digits(v, w)[i] == BigEndian(v, w)[i] { BigEndianAt(v, w, i); }
  }

  lemma MemberRead(f: Field, m: Member, v: Val, tail: seq<octet>)
    requires Reads(f, m) && Holds(m, v)
    ensures Parse(f, Written(m, v) + tail) == Got(AsRead(m, v), |Written(m, v)|)
  {
    hide BigEndian, Digits, BitAnd, NormFlags, FromBigEndian;
    Pow256Values();
    match m
    case N(w) =>
      DigitsAre(v.n, w);
      if f.U48? { FortyEight(v.n); }
      FieldRoundTrip(f, v, tail);
    case Z(w) =>
      DigitsAre(ToUnsigned(v.n, w), w);
      FieldRoundTrip(f, v, tail);
    case Addr =>
      DigitsAre(|v.b|, 2);
      FieldRoundTrip(f, v, tail);
    case Raw(_) => FieldRoundTrip(f, v, tail);
    case Str => FieldRoundTrip(f, v, tail);
    case Skip =>
    case Bits =>
  }

  /** Six octets are two and four. */
  lemma FortyEight(v: nat)
    requires v < Pow256(6)
    ensures BigEndian(v, 6) == BigEndian(v / Pow256(4), 2) + BigEndian(v % Pow256(4), 4)
  {
    Pow256Values();
    var a, b := BigEndian(v, 6), BigEndian(v / Pow256(4), 2) + BigEndian(v % Pow256(4), 4);
    BigEndianRoundTrip(v / Pow256(4), 2);
    BigEndianRoundTrip(v % Pow256(4), 4);
    BigEndianRoundTrip(v, 6);
    Joined(BigEndian(v / Pow256(4), 2), BigEndian(v % Pow256(4), 4));
    FromBigEndianRoundTrip(b);
  }

  lemma {:induction false} Joined(a: seq<octet>, b: seq<octet>)
    ensures FromBigEndian(a + b) == FromBigEndian(a) * Pow256(|b|) + FromBigEndian(b)
    decreases |b|
  {
    if b == [] {
      assert a + b == a;
    } else {
      var n := |b| - 1;
      Joined(a, b[..n]);
      assert (a + b)[..|a| + n] == a + b[..n];
      Shifted(FromBigEndian(a), Pow256(n), FromBigEndian(b[..n]));
    }
  }

  lemma Shifted(x: nat, p: nat, y: nat)
    ensures 256 * (x * p + y) == x * (256 * p) + 256 * y
  {
  }

  // ---------------------------------------------------------------- all members

  predicate HoldAll(ms: seq<Member>, vs: seq<Val>) {
    |ms| == |vs| && forall i :: 0 <= i < |ms| ==> Holds(ms[i], vs[i])
  }

  function WrittenAll(ms: seq<Member>, vs: seq<Val>): seq<octet>
    requires HoldAll(ms, vs)
  {
    if ms == [] then [] else Written(ms[0], vs[0]) + WrittenAll(ms[1..], vs[1..])
  }

  function AllAsRead(ms: seq<Member>, vs: seq<Val>): seq<Val>
    requires |ms| == |vs|
  {
    if ms == [] then [] else [AsRead(ms[0], vs[0])] + AllAsRead(ms[1..], vs[1..])
  }

  predicate ReadsAll(fs: seq<Field>, ms: seq<Member>) {
    |fs| == |ms| && forall i :: 0 <= i < |fs| ==> Reads(fs[i], ms[i])
  }

  /** A list of records of the same members takes the rest of a body. */
  datatype Format = Format(members: seq<Member>, list: seq<Member>)

  predicate HoldLists(list: seq<Member>, recs: seq<seq<Val>>) { forall i :: 0 <= i < |recs| ==> HoldAll(list, recs[i]) }

  function WrittenList(list: seq<Member>, recs: seq<seq<Val>>): seq<octet>
    requires HoldLists(list, recs)
  {
    if recs == [] then [] else WrittenAll(list, recs[0]) + WrittenList(list, recs[1..])
  }

  function ListAsRead(list: seq<Member>, recs: seq<seq<Val>>): seq<seq<Val>>
    requires HoldLists(list, recs)
  {
    if recs == [] then [] else [AllAsRead(list, recs[0])] + ListAsRead(list, recs[1..])
  }

  function Slots(f: Format, vs: seq<Val>, recs: seq<seq<Val>>): seq<Slot>
    requires HoldAll(f.members, vs) && HoldLists(f.list, recs)
    decreases |vs|
  {
    if vs == [] then (if f.list == [] then [] else [List(ListAsRead(f.list, recs))])
    else [Scalar(AsRead(f.members[0], vs[0]))] + Slots(Format(f.members[1..], f.list), vs[1..], recs)
  }

  predicate ListReads(c: Chain, list: seq<Member>) {
    if list == [] then c.End?
    else c.Proc? && c.item.Rest? && c.next.End? && !c.item.rec.selfSized && ReadsAll(c.item.rec.fields, list)
  }

  predicate ChainReads(c: Chain, f: Format)
    decreases |f.members|
  {
    if f.members == [] then ListReads(c, f.list)
    else c.Proc? && c.item.One? && Reads(c.item.f, f.members[0]) && ChainReads(c.next, Format(f.members[1..], f.list))
  }

  lemma {:induction false} AllRead(fs: seq<Field>, ms: seq<Member>, vs: seq<Val>, tail: seq<octet>)
    requires ReadsAll(fs, ms) && HoldAll(ms, vs)
    ensures ParseAll(fs, WrittenAll(ms, vs) + tail) == Got(AllAsRead(ms, vs), |WrittenAll(ms, vs)|)
    decreases |fs|
  {
    hide Parse, Written, AsRead, Reads, Holds;
    if fs != [] {
      var head, more := Written(ms[0], vs[0]), WrittenAll(ms[1..], vs[1..]);
      SplitThree(head, more, tail);
      MemberRead(fs[0], ms[0], vs[0], more + tail);
      AllRead(fs[1..], ms[1..], vs[1..], tail);
    }
  }

  lemma {:induction false} ListRead(rec: Rec, list: seq<Member>, recs: seq<seq<Val>>, tail: seq<octet>)
    requires FixedRec(rec) && ReadsAll(rec.fields, list) && HoldLists(list, recs) && |tail| < FieldsSize(rec.fields)
    ensures RestParse(rec, WrittenList(list, recs) + tail) == Got(ListAsRead(list, recs), |WrittenList(list, recs)|)
    decreases |recs|
  {
    hide ParseAll, WrittenAll, AllAsRead, ReadsAll, FieldsSize;
    if recs == [] {
      assert [] + tail == tail;
    } else {
      var head, more := WrittenAll(list, recs[0]), WrittenList(list, recs[1..]);
      var all := WrittenList(list, recs) + tail;
      SplitThree(head, more, tail);
      AllRead(rec.fields, list, recs[0], more + tail);
      FixedParse(rec.fields, all);
      ListRead(rec, list, recs[1..], tail);
    }
  }

  /** The values written are the values read, and nothing else is looked at. */
  lemma {:induction false} BodyRead(c: Chain, f: Format, vs: seq<Val>, recs: seq<seq<Val>>, tail: seq<octet>)
    requires WellFormed(c) && ChainReads(c, f) && HoldAll(f.members, vs) && HoldLists(f.list, recs)
    requires Tail(c, tail) && (f.list == [] ==> recs == [])
    ensures var b := WrittenAll(f.members, vs) + WrittenList(f.list, recs);
      ChainParse(c, b + tail) == Got(Slots(f, vs, recs), |b|)
    decreases |vs|
  {
    hide Parse, Written, AsRead, Reads, Holds, RestParse, ParseAll;
    var list := WrittenList(f.list, recs);
    if vs == [] {
      assert [] + list == list;
      if f.list == [] {
        assert list == [];
      } else {
        ListRead(c.item.rec, f.list, recs, tail);
        var got := [List(ListAsRead(f.list, recs))];
        assert ItemParse(c.item, list + tail) == Got(got[0], |list|);
        assert ChainParse(c.next, (list + tail)[|list|..]) == Got([], 0);
        assert got + [] == got;
      }
    } else {
      var more := Format(f.members[1..], f.list);
      var head, rest := Written(f.members[0], vs[0]), WrittenAll(more.members, vs[1..]);
      assert (head + rest + list) + tail == head + (rest + list + tail);
      MemberRead(c.item.f, f.members[0], vs[0], rest + list + tail);
      BodyRead(c.next, more, vs[1..], recs, tail);
    }
  }

  // ---------------------------------------------------------------- signalling TLVs

  const PORT_ID := [Raw(8), N(2)]
  const METRIC := [Z(8), Raw(8)]

  /** The signalling TLVs that are read as they are, by their type. */
  function BodyFormat(tlvType: nat, linuxptp: bool): Option<Format> {
    match tlvType
    case 0x0008 => Some(Format([], [Raw(8)]))
    case 0x0009 => Some(Format([N(1), Z(4), Z(4), N(6), Str], []))
    case 0x4001 => Some(Format([N(1), N(1), Skip, Skip] + (METRIC + METRIC + METRIC + METRIC + METRIC), []))
    case 0x8002 => Some(Format([Bits, Bits], []))
    case 0x8003 => Some(Format([N(2), Addr], []))
    case 0x8004 => Some(Format(PORT_ID, [N(2), N(6), N(4), Z(8), Z(4), N(6), N(4)]))
    case 0x8005 => Some(Format(PORT_ID + [Bits, Skip], [N(2), Z(8), Z(8), Z(4)]))
    case 0x8006 => Some(Format(PORT_ID + [N(1), Skip], [N(2), N(6), N(4)]))
    case 0x8007 => Some(Format([Z(4)], []))
    case 0x7f00 => if linuxptp then Some(Format(PORT_ID, [N(2), N(6), N(4), Z(8), N(6), N(4)])) else None
    case _ => None
  }

  lemma ReadsP(f: Field, m: Member, next: Chain, ms: seq<Member>, list: seq<Member>)
    requires Reads(f, m) && ChainReads(next, Format(ms, list))
    ensures ChainReads(P(f, next), Format([m] + ms, list))
  {
    assert ([m] + ms)[1..] == ms;
  }

  lemma ReadsP2(f: Field, g: Field, l: Member, m: Member, next: Chain, ms: seq<Member>, list: seq<Member>)
    requires Reads(f, l) && Reads(g, m) && ChainReads(next, Format(ms, list))
    ensures ChainReads(P2(f, g, next), Format([l, m] + ms, list))
  {
    hide ChainReads, Reads;
    ReadsP(g, m, next, ms, list);
    ReadsP(f, l, P(g, next), [m] + ms, list);
    assert [l] + ([m] + ms) == [l, m] + ms;
  }

  lemma ReadsP4(f: Field, g: Field, h: Field, i: Field, k: Member, l: Member, m: Member, n: Member, next: Chain,
                ms: seq<Member>, list: seq<Member>)
    requires Reads(f, k) && Reads(g, l) && Reads(h, m) && Reads(i, n) && ChainReads(next, Format(ms, list))
    ensures ChainReads(P4(f, g, h, i, next), Format([k, l, m, n] + ms, list))
  {
    hide ChainReads, Reads;
    ReadsP2(h, i, m, n, next, ms, list);
    ReadsP2(f, g, k, l, P2(h, i, next), [m, n] + ms, list);
    assert [k, l] + ([m, n] + ms) == [k, l, m, n] + ms;
  }

  lemma PortReads(next: Chain, ms: seq<Member>, list: seq<Member>)
    requires ChainReads(next, Format(ms, list))
    ensures ChainReads(PortIdentity(next), Format(PORT_ID + ms, list))
  {
    hide ChainReads;
    ReadsP2(Oct(8), U(2), Raw(8), N(2), next, ms, list);
  }

  lemma EndReads()
    ensures ChainReads(End, Format([], []))
  {
  }

  lemma OffsetReads()
    ensures ChainReads(P4(U(1), S(4), S(4), U48, P(Text, End)), Format([N(1), Z(4), Z(4), N(6), Str], []))
  {
    hide ChainReads, P4;
    EndReads();
    ReadsP(Text, Str, End, [], []);
    ReadsP4(U(1), S(4), S(4), U48, N(1), Z(4), Z(4), N(6), P(Text, End), [Str] + [], []);
    assert [N(1), Z(4), Z(4), N(6)] + ([Str] + []) == [N(1), Z(4), Z(4), N(6), Str];
  }

  lemma MetricsRead()
    ensures ChainReads(P4(U(1), U(1), Reserved, Reserved, P4(S(8), Oct(8), S(8), Oct(8), Metrics())),
                       Format([N(1), N(1), Skip, Skip] + (METRIC + METRIC + METRIC + METRIC + METRIC), []))
  {
    hide ChainReads, P4, P2;
    EndReads();
    ReadsP2(S(8), Oct(8), Z(8), Raw(8), End, [], []);
    var one := METRIC + [];
    ReadsP4(S(8), Oct(8), S(8), Oct(8), Z(8), Raw(8), Z(8), Raw(8), P2(S(8), Oct(8), End), one, []);
    var three := [Z(8), Raw(8), Z(8), Raw(8)] + one;
    ReadsP4(S(8), Oct(8), S(8), Oct(8), Z(8), Raw(8), Z(8), Raw(8), Metrics(), three, []);
    var five := [Z(8), Raw(8), Z(8), Raw(8)] + three;
    assert five == METRIC + METRIC + METRIC + METRIC + METRIC;
    ReadsP4(U(1), U(1), Reserved, Reserved, N(1), N(1), Skip, Skip, P4(S(8), Oct(8), S(8), Oct(8), Metrics()), five, []);
  }

  lemma AvailabilityReads()
    ensures ChainReads(P2(Flags(0xf), Flags(0xf), End), Format([Bits, Bits], []))
  {
    hide ChainReads, P2;
    EndReads();
    ReadsP2(Flags(0xf), Flags(0xf), Bits, Bits, End, [], []);
    assert [Bits, Bits] + [] == [Bits, Bits];
  }

  lemma AddressReads()
    ensures ChainReads(PortAddress(End), Format([N(2), Addr], []))
  {
    hide ChainReads, P2;
    EndReads();
    ReadsP2(U(2), Blob, N(2), Addr, End, [], []);
    assert [N(2), Addr] + [] == [N(2), Addr];
  }

  lemma RatioReads()
    ensures ChainReads(P(S(4), End), Format([Z(4)], []))
  {
    EndReads();
    ReadsP(S(4), Z(4), End, [], []);
  }

  lemma ListsRead()
    ensures ChainReads(Proc(Rest(CLOCK_IDENTITY), End), Format([], [Raw(8)]))
    ensures ChainReads(Proc(Rest(RX_SYNC_TIMING), End), Format([], [N(2), N(6), N(4), Z(8), Z(4), N(6), N(4)]))
    ensures ChainReads(Proc(Rest(RX_SYNC_COMPUTED), End), Format([], [N(2), Z(8), Z(8), Z(4)]))
    ensures ChainReads(Proc(Rest(TX_EVENT), End), Format([], [N(2), N(6), N(4)]))
    ensures ChainReads(Proc(Rest(DELAY_TIMING), End), Format([], [N(2), N(6), N(4), Z(8), N(6), N(4)]))
  {
  }

  lemma ComputedReads()
    ensures ChainReads(PortIdentity(P2(Flags(0x7), Reserved, Proc(Rest(RX_SYNC_COMPUTED), End))),
                       Format(PORT_ID + [Bits, Skip], [N(2), Z(8), Z(8), Z(4)]))
    ensures ChainReads(PortIdentity(P2(U(1), Reserved, Proc(Rest(TX_EVENT), End))),
                       Format(PORT_ID + [N(1), Skip], [N(2), N(6), N(4)]))
  {
    hide ChainReads, P2;
    ListsRead();
    var c, t := Proc(Rest(RX_SYNC_COMPUTED), End), Proc(Rest(TX_EVENT), End);
    ReadsP2(Flags(0x7), Reserved, Bits, Skip, c, [], [N(2), Z(8), Z(8), Z(4)]);
    assert [Bits, Skip] + [] == [Bits, Skip];
    PortReads(P2(Flags(0x7), Reserved, c), [Bits, Skip], [N(2), Z(8), Z(8), Z(4)]);
    ReadsP2(U(1), Reserved, N(1), Skip, t, [], [N(2), N(6), N(4)]);
    assert [N(1), Skip] + [] == [N(1), Skip];
    PortReads(P2(U(1), Reserved, t), [N(1), Skip], [N(2), N(6), N(4)]);
  }

  lemma TimingsRead()
    ensures ChainReads(PortIdentity(Proc(Rest(RX_SYNC_TIMING), End)), Format(PORT_ID, [N(2), N(6), N(4), Z(8), Z(4), N(6), N(4)]))
    ensures ChainReads(PortIdentity(Proc(Rest(DELAY_TIMING), End)), Format(PORT_ID, [N(2), N(6), N(4), Z(8), N(6), N(4)]))
  {
    hide ChainReads, PortIdentity;
    ListsRead();
    assert PORT_ID + [] == PORT_ID;
    PortReads(Proc(Rest(RX_SYNC_TIMING), End), [], [N(2), N(6), N(4), Z(8), Z(4), N(6), N(4)]);
    PortReads(Proc(Rest(DELAY_TIMING), End), [], [N(2), N(6), N(4), Z(8), N(6), N(4)]);
  }

  lemma ReadsSome(c: Chain, f: Format)
    requires ChainReads(c, f) && (f.members != [] || f.list != [])
    ensures c.Proc?
  {
  }

  /** The calls for a type read the members of its format. */
  lemma LayoutReads(tlvType: nat, linuxptp: bool)
    ensures var c, f := SigLayout(tlvType, linuxptp), BodyFormat(tlvType, linuxptp);
      if f.None? then c.End? else c.Proc? && ChainReads(c, f.value)
  {
    hide ChainReads;
    var c, f := SigLayout(tlvType, linuxptp), BodyFormat(tlvType, linuxptp);
    LayoutMatches(tlvType, linuxptp);
    if f.Some? {
      SomeMembers(tlvType, linuxptp);
      hide SigLayout, BodyFormat;
      ReadsSome(c, f.value);
    } else {
      NoMembers(tlvType, linuxptp);
    }
  }

  lemma SomeMembers(tlvType: nat, linuxptp: bool)
    requires BodyFormat(tlvType, linuxptp).Some?
    ensures var f := BodyFormat(tlvType, linuxptp).value; f.members != [] || f.list != []
  {
  }

  lemma NoMembers(tlvType: nat, linuxptp: bool)
    requires BodyFormat(tlvType, linuxptp).None?
    ensures SigLayout(tlvType, linuxptp).End?
  {
    hide P, P2, P4, PortAddress, PortIdentity, Metrics;
  }

  lemma LayoutMatches(tlvType: nat, linuxptp: bool)
    ensures BodyFormat(tlvType, linuxptp).Some? ==>
      ChainReads(SigLayout(tlvType, linuxptp), BodyFormat(tlvType, linuxptp).value)
  {
    hide SigLayout, BodyFormat;
    if tlvType < 0x8004 { PlainMatches(tlvType, linuxptp); } else { PortMatches(tlvType, linuxptp); }
  }

  lemma PlainMatches(tlvType: nat, linuxptp: bool)
    requires tlvType < 0x8004
    ensures BodyFormat(tlvType, linuxptp).Some? ==>
      ChainReads(SigLayout(tlvType, linuxptp), BodyFormat(tlvType, linuxptp).value)
  {
    hide ChainReads, P, P4, P2, PortAddress, PortIdentity, Metrics, Grown, FixedChain;
    match tlvType {
      case 0x0008 => ListsRead();
      case 0x0009 => OffsetReads();
      case 0x4001 => MetricsRead();
      case 0x8002 => AvailabilityReads();
      case 0x8003 => AddressReads();
      case _ => TimingsRead();
    }
  }

  lemma PortMatches(tlvType: nat, linuxptp: bool)
    requires tlvType >= 0x8004
    ensures BodyFormat(tlvType, linuxptp).Some? ==>
      ChainReads(SigLayout(tlvType, linuxptp), BodyFormat(tlvType, linuxptp).value)
  {
    hide ChainReads, P, P4, P2, PortAddress, PortIdentity, Metrics, Grown, FixedChain;
    match tlvType {
      case 0x8004 => TimingsRead();
      case 0x8007 => RatioReads();
      case _ => ComputedReads();
    }
  }

  /** A TLV of each of these types is stored with the values that its octets stand for. Only a
      list may be followed by octets, fewer than a record has. */
  lemma BodyStored(tlvType: nat, linuxptp: bool, vs: seq<Val>, recs: seq<seq<Val>>, tail: seq<octet>)
    requires BodyFormat(tlvType, linuxptp).Some?
    requires var f := BodyFormat(tlvType, linuxptp).value;
      HoldAll(f.members, vs) && HoldLists(f.list, recs) && (f.list == [] ==> recs == [])
    requires Tail(SigLayout(tlvType, linuxptp), tail)
    ensures var f := BodyFormat(tlvType, linuxptp).value;
      Handle(tlvType, WrittenAll(f.members, vs) + WrittenList(f.list, recs) + tail, linuxptp)
      == Handled.Kept(SigData(Slots(f, vs, recs)))
  {
    hide BodyFormat, SigLayout, ChainReads, WellFormed, ChainParse, HoldAll, HoldLists;
    LayoutReads(tlvType, linuxptp);
    SigLayoutWellFormed(tlvType, linuxptp);
    PlainType(tlvType, linuxptp);
    BodyRead(SigLayout(tlvType, linuxptp), BodyFormat(tlvType, linuxptp).value, vs, recs, tail);
  }

  lemma PlainType(tlvType: nat, linuxptp: bool)
    requires BodyFormat(tlvType, linuxptp).Some?
    ensures !IsOrganization(tlvType) && tlvType != L1_SYNC && tlvType != MANAGEMENT_ERROR_STATUS && tlvType != MANAGEMENT
  {
  }

  /** Every other type but 1, 2, 3, 0x4000, 0x8000 and 0x8001 is skipped. */
  lemma OthersSkipped(tlvType: nat, body: seq<octet>, linuxptp: bool)
    requires BodyFormat(tlvType, linuxptp).None? && tlvType !in {1, 2, 3, 0x4000, 0x8000, 0x8001}
    ensures Handle(tlvType, body, linuxptp) == Ignored
  {
    hide SigLayout, BodyFormat, ChainParse, ReadManagement, ReadErrorStatus, ReadSync, ReadOrganization;
    LayoutReads(tlvType, linuxptp);
  }

  /** The filter, if it is on, lets through exactly the types of its set. */
  lemma FilterActs(e: Env, at: nat, tlvType: nat, body: seq<octet>)
    requires tlvType != 0x8009
    ensures Fate(e, Wire(at, tlvType, body))
         == if !e.prms.filterSignaling || tlvType in e.prms.sigTlvs then Handle(tlvType, body, e.prms.linuxptp) else Ignored
  {
    hide Handle;
  }

  /** The octets of members whose size is fixed. */
  function SizeOf(ms: seq<Member>): nat {
    if ms == [] then 0
    else (match ms[0] case N(w) => w case Z(w) => w case Raw(k) => k case Skip => 1 case Bits => 1 case _ => 0) + SizeOf(ms[1..])
  }

  lemma {:induction false} ShortFails(c: Chain, f: Format, b: seq<octet>)
    requires WellFormed(c) && ChainReads(c, f) && |b| < SizeOf(f.members) && forall m :: m in f.members ==> !m.Str? && !m.Addr?
    ensures ChainParse(c, b) == Fail(TOO_SMALL)
    decreases |f.members|
  {
    hide FromBigEndian, Pow256, ToSigned;
    var m, more := f.members[0], Format(f.members[1..], f.list);
    assert m in f.members;
    var r := Parse(c.item.f, b);
    if r.Got? { ShortFails(c.next, more, b[r.used..]); }
  }

  /** A body that is too short makes the whole message fail. */
  lemma ShortBody(tlvType: nat, linuxptp: bool, body: seq<octet>)
    requires BodyFormat(tlvType, linuxptp).Some?
    requires var ms := BodyFormat(tlvType, linuxptp).value.members;
      |body| < SizeOf(ms) && forall m :: m in ms ==> !m.Str? && !m.Addr?
    ensures Handle(tlvType, body, linuxptp) == Bad(TOO_SMALL)
  {
    hide BodyFormat, SigLayout, ChainReads, WellFormed, ChainParse, SizeOf;
    LayoutReads(tlvType, linuxptp);
    SigLayoutWellFormed(tlvType, linuxptp);
    PlainType(tlvType, linuxptp);
    ShortFails(SigLayout(tlvType, linuxptp), BodyFormat(tlvType, linuxptp).value, body);
  }

  // ---------------------------------------------------------------- L1_SYNC

  function Scalars(vs: seq<Val>): seq<Slot> { seq(|vs|, i requires 0 <= i < |vs| => Scalar(vs[i])) }

  lemma {:induction false} SlotsAre(f: Format, vs: seq<Val>)
    requires HoldAll(f.members, vs) && f.list == [] && forall m :: m in f.members ==> !m.Skip?
    ensures Slots(f, vs, []) == Scalars(vs)
    decreases |vs|
  {
    hide Holds;
    if vs != [] {
      assert f.members[0] in f.members;
      SlotsAre(Format(f.members[1..], f.list), vs[1..]);
      assert Scalars(vs) == [Scalar(vs[0])] + Scalars(vs[1..]);
    }
  }

  const SYNC := [Bits, Bits]
  const SYNC_OPTIONS := [Bits, Z(8), N(6), N(4), Z(8), N(6), N(4)]

  lemma SyncReads()
    ensures WellFormed(SyncFlags()) && ChainReads(SyncFlags(), Format(SYNC, []))
    ensures WellFormed(SyncOptions()) && ChainReads(SyncOptions(), Format(SYNC_OPTIONS, []))
    ensures FixedChain(SyncFlags()) && FixedChain(SyncOptions())
  {
    SyncFixed();
    EndReads();
    hide ChainReads, Grown, FixedChain, WellFormed;
    ReadsP2(Flags(0xf), Flags(0x7), Bits, Bits, End, [], []);
    assert [Bits, Bits] + [] == SYNC;
    ReadsP2(U48, U(4), N(6), N(4), End, [], []);
    ReadsP(S(8), Z(8), Timestamp(End), [N(6), N(4)] + [], []);
    var c := P(S(8), Timestamp(End));
    ReadsP2(U48, U(4), N(6), N(4), c, [Z(8)] + ([N(6), N(4)] + []), []);
    ReadsP2(Flags(0x7), S(8), Bits, Z(8), Timestamp(c), [N(6), N(4)] + ([Z(8)] + ([N(6), N(4)] + [])), []);
    assert [Bits, Z(8)] + ([N(6), N(4)] + ([Z(8)] + ([N(6), N(4)] + []))) == SYNC_OPTIONS;
  }

  lemma SyncFixed()
    ensures WellFormed(SyncFlags()) && WellFormed(SyncOptions()) && FixedChain(SyncFlags()) && FixedChain(SyncOptions())
  {
  }

  lemma {:induction false} AnyTail(c: Chain, tail: seq<octet>)
    requires FixedChain(c)
    ensures Tail(c, tail)
    decreases c
  {
    if c.Proc? { AnyTail(c.next, tail); }
  }

  lemma NoOptions()
    ensures EmptySlots(SyncOptions()) == Scalars([Num(0), Num(0), Num(0), Num(0), Num(0), Num(0), Num(0)])
  {
    hide Grown, FixedChain;
    var c := P(S(8), Timestamp(End));
    var d := Timestamp(c);
    NoTime(End);
    NoTime(c);
    assert EmptySlots(c) == [Scalar(Num(0))] + EmptySlots(Timestamp(End));
    assert EmptySlots(P(S(8), d)) == [Scalar(Num(0))] + EmptySlots(d);
    assert EmptySlots(SyncOptions()) == [Scalar(Num(0))] + EmptySlots(P(S(8), d));
    assert EmptySlots(End) == [];
  }

  lemma NoTime(next: Chain)
    requires WellFormed(next)
    ensures WellFormed(Timestamp(next)) && EmptySlots(Timestamp(next)) == [Scalar(Num(0)), Scalar(Num(0))] + EmptySlots(next)
  {
    hide Grown, FixedChain;
    assert EmptySlots(P(U(4), next)) == [Scalar(Num(0))] + EmptySlots(next);
  }

  /** L1_SYNC has two octets of flags; with bit 3 of the first its parameters follow, without
      it they are zero. */
  lemma SyncStored(vs: seq<Val>, ws: seq<Val>, tail: seq<octet>, linuxptp: bool)
    requires HoldAll(SYNC, vs) && HoldAll(SYNC_OPTIONS, ws)
    ensures vs[0].n / 8 % 2 == 0 ==>
      Handle(0x8001, [vs[0].n, vs[1].n] + tail, linuxptp)
      == Handled.Kept(SigData(Scalars(vs + [Num(0), Num(0), Num(0), Num(0), Num(0), Num(0), Num(0)])))
    ensures vs[0].n / 8 % 2 == 1 ==>
      Handle(0x8001, [vs[0].n, vs[1].n] + (WrittenAll(SYNC_OPTIONS, ws) + tail), linuxptp)
      == Handled.Kept(SigData(Scalars(vs + ws)))
  {
    hide ChainReads, ChainParse, SyncFlags, SyncOptions, WellFormed, FixedChain, EmptySlots, WrittenAll, HoldAll;
    SyncReads();
    FlagOctets(vs);
    var rest := WrittenAll(SYNC_OPTIONS, ws) + tail;
    SyncPart(SyncFlags(), SYNC, vs, tail);
    SyncPart(SyncFlags(), SYNC, vs, rest);
    SyncPart(SyncOptions(), SYNC_OPTIONS, ws, tail);
    NoOptions();
    var none := [Num(0), Num(0), Num(0), Num(0), Num(0), Num(0), Num(0)];
    assert Scalars(vs + none) == Scalars(vs) + Scalars(none);
    assert Scalars(vs + ws) == Scalars(vs) + Scalars(ws);
    var b, f: seq<octet> := [vs[0].n, vs[1].n] + rest, [vs[0].n, vs[1].n];
    assert b[2..] == rest && (f + tail)[0] == vs[0].n && b[0] == vs[0].n;
  }

  lemma FlagOctets(vs: seq<Val>)
    requires HoldAll(SYNC, vs)
    ensures |vs| == 2 && Holds(Bits, vs[0]) && Holds(Bits, vs[1]) && WrittenAll(SYNC, vs) == [vs[0].n, vs[1].n]
  {
    assert Holds(SYNC[0], vs[0]) && Holds(SYNC[1], vs[1]);
    assert WrittenAll(SYNC[1..], vs[1..]) == [vs[1].n] + WrittenAll([], []);
  }

  lemma SyncPart(c: Chain, ms: seq<Member>, vs: seq<Val>, tail: seq<octet>)
    requires WellFormed(c) && ChainReads(c, Format(ms, [])) && FixedChain(c) && HoldAll(ms, vs)
    requires forall m :: m in ms ==> !m.Skip?
    ensures ChainParse(c, WrittenAll(ms, vs) + tail) == Got(Scalars(vs), |WrittenAll(ms, vs)|)
  {
    hide ChainReads, ChainParse, WellFormed, FixedChain, WrittenAll, HoldAll;
    AnyTail(c, tail);
    BodyRead(c, Format(ms, []), vs, [], tail);
    assert WrittenAll(ms, vs) + [] == WrittenAll(ms, vs);
    SlotsAre(Format(ms, []), vs);
  }
}
