/**
 The size a dataField is planned with, from the identifiers table or from the `_s`
 function of its TLV, against the octets the codec really writes.
 */
module TlvSizes {
  import opened Octets
  import opened TlvLayout
  import opened TlvCodec

  lemma {:induction false} FixedChainSize(c: Chain, ss: seq<Slot>)
    requires FixedChain(c) && ChainFits(c, ss)
    ensures |ChainEnc(c, ss)| == ChainSize(c)
    decreases c
  {
    match c
    case End =>
    case Proc(item, next) => FixedChainSize(next, ss[1..]);
  }

  // Lengths that are known from the values alone

  function RecSize(rec: Rec, vs: seq<Val>): nat
    requires |vs| == |rec.fields|
  {
    (if rec.selfSized then 2 else 0) + FieldsLength(rec.fields, vs)
  }

  function RecsSize(rec: Rec, recs: seq<seq<Val>>): nat
    requires forall i :: 0 <= i < |recs| ==> |recs[i]| == |rec.fields|
  {
    if recs == [] then 0 else RecSize(rec, recs[0]) + RecsSize(rec, recs[1..])
  }

  function ItemSize(item: Item, s: Slot): nat
    requires ItemFits(item, s)
  {
    match item
    case One(f) => FieldLength(f, s.v)
    case Counted(w, _, rec) => w + RecsSize(rec, s.recs)
    case Rest(rec) => RecsSize(rec, s.recs)
  }

  function SlotsSize(c: Chain, ss: seq<Slot>): nat
    requires ChainFits(c, ss)
  {
    match c
    case End => 0
    case Proc(item, next) => ItemSize(item, ss[0]) + SlotsSize(next, ss[1..])
  }

  lemma {:induction false} RecsSizeAgrees(rec: Rec, recs: seq<seq<Val>>)
    requires RecsFit(rec, recs)
    ensures RecsSize(rec, recs) == |RecsEnc(rec, recs)|
    decreases |recs|
  {
    if recs != [] {
      FieldsLengthAgrees(rec.fields, recs[0]);
      RecsSizeAgrees(rec, recs[1..]);
    }
  }

  lemma {:induction false} SlotsSizeAgrees(c: Chain, ss: seq<Slot>)
    requires ChainFits(c, ss)
    ensures SlotsSize(c, ss) == |ChainEnc(c, ss)|
    decreases c
  {
    match c
    case End =>
    case Proc(item, next) =>
      if !item.One? { RecsSizeAgrees(item.rec, ss[0].recs); }
      SlotsSizeAgrees(next, ss[1..]);
  }

  lemma {:induction false} FixedFieldsLength(fs: seq<Field>, vs: seq<Val>)
    requires |fs| == |vs| && forall f :: f in fs ==> !f.Text? && !f.Blob?
    ensures FieldsLength(fs, vs) == FieldsSize(fs)
    decreases |fs|
  {
    if fs != [] {
      assert fs[0] in fs;
      FixedFieldsLength(fs[1..], vs[1..]);
    }
  }

  lemma {:induction false} FixedRecsSize(rec: Rec, recs: seq<seq<Val>>, k: nat)
    requires RecsFit(rec, recs) && FixedRec(rec) && FieldsSize(rec.fields) == k
    ensures RecsSize(rec, recs) == k * |recs|
    decreases |recs|
  {
    hide RecFits, FixedRec, FieldsSize, FieldsLength;
    if recs != [] {
      assert FixedRec(rec);
      RecSizeFixed(rec, recs[0]);
      FixedRecsSize(rec, recs[1..], k);
    }
  }

  lemma RecSizeFixed(rec: Rec, vs: seq<Val>)
    requires FixedRec(rec) && RecFits(rec, vs)
    ensures |vs| == |rec.fields| && RecSize(rec, vs) == FieldsSize(rec.fields)
  {
    FixedFieldsLength(rec.fields, vs);
  }

  /** `vector_l`: the octets of a list, and `start` octets in front of it. */
  method VectorL(start: nat, rec: Rec, recs: seq<seq<Val>>) returns (size: nat)
    requires RecsFit(rec, recs)
    ensures size == start + |RecsEnc(rec, recs)|
  {
    RecsSizeAgrees(rec, recs);
    assert recs[0..] == recs;
    size := start;
    for i := 0 to |recs|
      invariant size + RecsSize(rec, recs[i..]) == start + RecsSize(rec, recs)
    {
      assert recs[i..][0] == recs[i] && recs[i..][1..] == recs[i + 1..];
      size := size + RecSize(rec, recs[i]);
    }
  }

  // The `_s` functions

  function TextSize(s: Slot): nat { if s.Scalar? && s.v.Bytes? then 1 + |s.v.b| else 0 }

  function OctetsSize(s: Slot): nat { if s.Scalar? && s.v.Bytes? then |s.v.b| else 0 }

  function ListSize(rec: Rec, s: Slot): nat {
    if s.List? && (forall i :: 0 <= i < |s.recs| ==> |s.recs[i]| == |rec.fields|) then RecsSize(rec, s.recs) else 0
  }

  function ListLength(s: Slot): nat { if s.List? then |s.recs| else 0 }

  function SlotAt(ss: seq<Slot>, i: nat): Slot { if i < |ss| then ss[i] else List([]) }

  /** The `_s` function of an identifier whose dataField has no fixed length. */
  function CountedSize(id: MngId, ss: seq<Slot>): int {
    match id
    case CLOCK_DESCRIPTION =>
      13 + OctetsSize(SlotAt(ss, 2)) + (4 + OctetsSize(SlotAt(ss, 4))) + TextSize(SlotAt(ss, 1))
      + TextSize(SlotAt(ss, 7)) + TextSize(SlotAt(ss, 8)) + TextSize(SlotAt(ss, 9))
    case USER_DESCRIPTION => TextSize(SlotAt(ss, 0))
    case FAULT_LOG => 2 + ListSize(FAULT_RECORD, SlotAt(ss, 0))
    case PATH_TRACE_LIST => 8 * ListLength(SlotAt(ss, 0))
    case GRANDMASTER_CLUSTER_TABLE => 2 + ListSize(PORT_ADDRESS, SlotAt(ss, 1))
    case UNICAST_MASTER_TABLE => 3 + ListSize(PORT_ADDRESS, SlotAt(ss, 1))
    case ACCEPTABLE_MASTER_TABLE => 2 + 11 * ListLength(SlotAt(ss, 0))
    case ALTERNATE_TIME_OFFSET_NAME => 1 + TextSize(SlotAt(ss, 1))
    case PORT_PROPERTIES_NP => 2 + 10 + TextSize(SlotAt(ss, 4))
    case UNICAST_MASTER_TABLE_NP => 2 + ListSize(UNICAST_MASTER_NP, SlotAt(ss, 0))
    case _ => -2
  }

  lemma CountedSizeNat(id: MngId, ss: seq<Slot>)
    requires VariableLayout(id).Proc?
    ensures CountedSize(id, ss) >= 0
  {
  }

  lemma SizeStep(f: Field, next: Chain, ss: seq<Slot>)
    requires ChainFits(P(f, next), ss)
    ensures |ss| > 0 && ss[0].Scalar? && Fits(f, ss[0].v) && ChainFits(next, ss[1..])
    ensures SlotsSize(P(f, next), ss) == FieldLength(f, ss[0].v) + SlotsSize(next, ss[1..])
  {
  }

  lemma ListStep(item: Item, ss: seq<Slot>)
    requires !item.One? && ChainFits(Proc(item, End), ss)
    ensures |ss| == 1 && ItemFits(item, ss[0])
    ensures SlotsSize(Proc(item, End), ss) == ItemSize(item, ss[0])
  {
  }

  lemma ClockDescriptionSize(ss: seq<Slot>)
    requires ChainFits(ClockDescription(End), ss)
    ensures |ss| == 11
    ensures CountedSize(CLOCK_DESCRIPTION, ss) + 1 == SlotsSize(ClockDescription(End), ss)
  {
    hide SlotsSize, ChainFits, P, Varies, Grown, WellFormed;
    var texts := P4(Text, Text, Text, Oct(6), End);
    var middle := P2(Oct(3), Reserved, texts);
    var address := PortAddress(middle);
    SizeStep(U(2), P2(Text, Blob, address), ss);
    SizeStep(Text, P(Blob, address), ss[1..]);
    SizeStep(Blob, address, ss[1..][1..]);
    assert ss[1..][1..] == ss[2..] && ss[2..][1..] == ss[3..];
    ClockAddressSize(ss[3..]);
  }

  lemma ClockAddressSize(ss: seq<Slot>)
    requires ChainFits(PortAddress(P2(Oct(3), Reserved, P4(Text, Text, Text, Oct(6), End))), ss)
    ensures |ss| == 8
    ensures SlotsSize(PortAddress(P2(Oct(3), Reserved, P4(Text, Text, Text, Oct(6), End))), ss)
         == 14 + OctetsSize(ss[1]) + TextSize(ss[4]) + TextSize(ss[5]) + TextSize(ss[6])
  {
    hide SlotsSize, ChainFits, P, Varies, Grown, WellFormed;
    var texts := P4(Text, Text, Text, Oct(6), End);
    var middle := P2(Oct(3), Reserved, texts);
    SizeStep(U(2), P(Blob, middle), ss);
    SizeStep(Blob, middle, ss[1..]);
    SizeStep(Oct(3), P(Reserved, texts), ss[1..][1..]);
    SizeStep(Reserved, texts, ss[1..][1..][1..]);
    assert ss[1..][1..][1..][1..] == ss[4..];
    ClockTextsSize(ss[4..]);
  }

  lemma ClockTextsSize(ss: seq<Slot>)
    requires ChainFits(P4(Text, Text, Text, Oct(6), End), ss)
    ensures |ss| == 4
    ensures SlotsSize(P4(Text, Text, Text, Oct(6), End), ss) == 6 + TextSize(ss[0]) + TextSize(ss[1]) + TextSize(ss[2])
  {
    hide P;
    SizeStep(Text, P3(Text, Text, Oct(6), End), ss);
    SizeStep(Text, P2(Text, Oct(6), End), ss[1..]);
    SizeStep(Text, P(Oct(6), End), ss[1..][1..]);
    SizeStep(Oct(6), End, ss[1..][1..][1..]);
  }

  /** What `_s` counts is what the codec writes, but for CLOCK_DESCRIPTION, where it
      leaves the reserved octet out. */
  lemma CountedSizeAgrees(id: MngId, ss: seq<Slot>)
    requires Line(id).size == -2 && ChainFits(Layout(id), ss)
    ensures CountedSize(id, ss) == |ChainEnc(Layout(id), ss)| - if id.CLOCK_DESCRIPTION? then 1 else 0
  {
    hide Line, Agrees, Varies, Sized, WellFormed, ChainFits, SlotsSize, ChainEnc, CountedSize;
    hide ClockDescription, UserDescription, FaultLog, PathTraceList, GrandmasterClusterTable,
      UnicastMasterTable, AcceptableMasterTable, AlternateTimeOffsetName, PortPropertiesNp, UnicastMasterTableNp;
    SlotsSizeAgrees(Layout(id), ss);
    VariableIsProc(id);
    match id
    case CLOCK_DESCRIPTION => ClockDescriptionSize(ss);
    case USER_DESCRIPTION => UserDescriptionSize(ss);
    case FAULT_LOG => FaultLogSize(ss);
    case PATH_TRACE_LIST => PathTraceListSize(ss);
    case GRANDMASTER_CLUSTER_TABLE => GrandmasterClusterTableSize(ss);
    case UNICAST_MASTER_TABLE => UnicastMasterTableSize(ss);
    case ACCEPTABLE_MASTER_TABLE => AcceptableMasterTableSize(ss);
    case ALTERNATE_TIME_OFFSET_NAME => AlternateTimeOffsetNameSize(ss);
    case PORT_PROPERTIES_NP => PortPropertiesNpSize(ss);
    case UNICAST_MASTER_TABLE_NP => UnicastMasterTableNpSize(ss);
    case _ =>
  }

  lemma VariableIsProc(id: MngId)
    requires Line(id).size == -2
    ensures VariableLayout(id).Proc?
  {
    hide Line;
  }

  lemma UserDescriptionSize(ss: seq<Slot>)
    requires ChainFits(UserDescription(End), ss)
    ensures CountedSize(USER_DESCRIPTION, ss) == SlotsSize(UserDescription(End), ss)
  {
    SizeStep(Text, End, ss);
  }

  lemma FaultLogSize(ss: seq<Slot>)
    requires ChainFits(FaultLog(End), ss)
    ensures CountedSize(FAULT_LOG, ss) == SlotsSize(FaultLog(End), ss)
  {
    hide EncAll, Fits, Varies, WellFormed, FieldsLeast;
    ListStep(Counted(2, false, FAULT_RECORD), ss);
  }

  lemma PathTraceListSize(ss: seq<Slot>)
    requires ChainFits(PathTraceList(End), ss)
    ensures CountedSize(PATH_TRACE_LIST, ss) == SlotsSize(PathTraceList(End), ss)
  {
    hide EncAll, Fits, Varies, WellFormed, FieldsLeast;
    ListStep(Rest(CLOCK_IDENTITY), ss);
    assert FieldsSize([Oct(8)]) == 8;
    FixedRecsSize(CLOCK_IDENTITY, ss[0].recs, 8);
  }

  lemma GrandmasterClusterTableSize(ss: seq<Slot>)
    requires ChainFits(GrandmasterClusterTable(End), ss)
    ensures CountedSize(GRANDMASTER_CLUSTER_TABLE, ss) == SlotsSize(GrandmasterClusterTable(End), ss)
  {
    hide EncAll, Varies, WellFormed, FieldsLeast;
    SizeStep(S(1), Proc(Counted(1, false, PORT_ADDRESS), End), ss);
    ListStep(Counted(1, false, PORT_ADDRESS), ss[1..]);
  }

  lemma UnicastMasterTableSize(ss: seq<Slot>)
    requires ChainFits(UnicastMasterTable(End), ss)
    ensures CountedSize(UNICAST_MASTER_TABLE, ss) == SlotsSize(UnicastMasterTable(End), ss)
  {
    hide EncAll, Varies, WellFormed, FieldsLeast;
    SizeStep(S(1), Proc(Counted(2, false, PORT_ADDRESS), End), ss);
    ListStep(Counted(2, false, PORT_ADDRESS), ss[1..]);
  }

  lemma AcceptableMasterTableSize(ss: seq<Slot>)
    requires ChainFits(AcceptableMasterTable(End), ss)
    ensures CountedSize(ACCEPTABLE_MASTER_TABLE, ss) == SlotsSize(AcceptableMasterTable(End), ss)
  {
    hide EncAll, Fits, Varies, WellFormed, FieldsLeast;
    ListStep(Counted(2, true, ACCEPTABLE_MASTER), ss);
    assert FieldsSize([U(1)]) == 1 && FieldsSize([U(2), U(1)]) == 3;
    assert FieldsSize([Oct(8), U(2), U(1)]) == 11;
    FixedRecsSize(ACCEPTABLE_MASTER, ss[0].recs, 11);
  }

  lemma AlternateTimeOffsetNameSize(ss: seq<Slot>)
    requires ChainFits(AlternateTimeOffsetName(End), ss)
    ensures CountedSize(ALTERNATE_TIME_OFFSET_NAME, ss) == SlotsSize(AlternateTimeOffsetName(End), ss)
  {
    SizeStep(U(1), P(Text, End), ss);
    SizeStep(Text, End, ss[1..]);
  }

  lemma PortPropertiesNpSize(ss: seq<Slot>)
    requires ChainFits(PortPropertiesNp(End), ss)
    ensures CountedSize(PORT_PROPERTIES_NP, ss) == SlotsSize(PortPropertiesNp(End), ss)
  {
    hide Varies, Sized, WellFormed, Grown, SlotsSize;
    PortPropertiesSize(ss);
  }

  lemma PortPropertiesSize(ss: seq<Slot>)
    requires ChainFits(PortIdentity(P3(U(1), U(1), Text, End)), ss)
    ensures |ss| == 5
    ensures SlotsSize(PortIdentity(P3(U(1), U(1), Text, End)), ss) == 12 + TextSize(ss[4])
  {
    hide P, SlotsSize, ChainFits, Varies, WellFormed, Grown;
    SizeStep(Oct(8), P(U(2), P3(U(1), U(1), Text, End)), ss);
    SizeStep(U(2), P3(U(1), U(1), Text, End), ss[1..]);
    SizeStep(U(1), P2(U(1), Text, End), ss[1..][1..]);
    assert ss[1..][1..][1..] == ss[3..];
    SizeStep(U(1), P(Text, End), ss[3..]);
    SizeStep(Text, End, ss[3..][1..]);
    SizeEnd(ss[3..][1..][1..]);
  }

  lemma SizeEnd(ss: seq<Slot>)
    requires ChainFits(End, ss)
    ensures ss == [] && SlotsSize(End, ss) == 0
  {
  }

  lemma UnicastMasterTableNpSize(ss: seq<Slot>)
    requires ChainFits(UnicastMasterTableNp(End), ss)
    ensures CountedSize(UNICAST_MASTER_TABLE_NP, ss) == SlotsSize(UnicastMasterTableNp(End), ss)
  {
    hide EncAll, Fits, Varies, WellFormed, FieldsLeast;
    ListStep(Counted(2, true, UNICAST_MASTER_NP), ss);
  }

  // The size a message is planned with

  /** The members of a TLV structure that nobody has set. */
  function EmptyVal(f: Field): (v: Val)
    ensures Fits(f, v)
  {
    match f
    case Oct(k) => Bytes(seq(k, _ => 0))
    case Text => Bytes([])
    case Blob => Bytes([])
    case _ => Num(0)
  }

  function EmptySlots(c: Chain): (ss: seq<Slot>)
    requires WellFormed(c)
    ensures ChainFits(c, ss)
  {
    match c
    case End => []
    case Proc(item, next) => [if item.One? then Scalar(EmptyVal(item.f)) else List([])] + EmptySlots(next)
  }

  /** The octets of a dataField with its pad octet: a size from the table, or counted from
      the values that are to be sent, or from an empty TLV. */
  function PlannedSize(id: MngId, data: Option<seq<Slot>>): int {
    var size := Line(id).size;
    if size == -2 then
      var n := CountedSize(id, if data.Some? then data.value else EmptySlots(Layout(id)));
      if n < 0 then n else RoundEven(n)
    else size
  }

  /** The planned size is the size of the padded encoding; for CLOCK_DESCRIPTION, which
      misses an octet, exactly when the encoding needs no pad. */
  lemma PlannedSizeAgrees(id: MngId, ss: seq<Slot>)
    requires HasData(id) && ChainFits(Layout(id), ss)
    ensures PlannedSize(id, Some(ss)) == RoundEven(|ChainEnc(Layout(id), ss)|)
       <==> !(id.CLOCK_DESCRIPTION? && |ChainEnc(Layout(id), ss)| % 2 == 1)
  {
    hide Line, CountedSize, ChainEnc, ChainFits, ChainSize, WellFormed;
    ClockDescriptionLine();
    if Line(id).size == -2 {
      CountedSizeNat(id, ss);
      CountedSizeAgrees(id, ss);
    } else {
      FixedChainSize(Layout(id), ss);
    }
  }

  /** A clock description is planned with the octets it takes exactly when its texts and
      addresses have an even length in all. */
  lemma ClockDescriptionPlan(ss: seq<Slot>)
    requires ChainFits(Layout(CLOCK_DESCRIPTION), ss)
    ensures |ss| == 11
    ensures PlannedSize(CLOCK_DESCRIPTION, Some(ss)) == RoundEven(|ChainEnc(Layout(CLOCK_DESCRIPTION), ss)|)
       <==> (TextSize(ss[1]) + OctetsSize(ss[2]) + OctetsSize(ss[4])
             + TextSize(ss[7]) + TextSize(ss[8]) + TextSize(ss[9])) % 2 == 0
  {
    hide Line, ChainEnc, ChainFits, ChainSize, WellFormed, SlotsSize, PlannedSize, CountedSize, TextSize, OctetsSize;
    ClockDescriptionLine();
    PlannedSizeAgrees(CLOCK_DESCRIPTION, ss);
    CountedSizeAgrees(CLOCK_DESCRIPTION, ss);
    ClockDescriptionSize(ss);
    ClockDescriptionCounts(ss);
  }

  lemma ClockDescriptionCounts(ss: seq<Slot>)
    requires |ss| == 11
    ensures CountedSize(CLOCK_DESCRIPTION, ss) == 17 + (TextSize(ss[1]) + OctetsSize(ss[2]) + OctetsSize(ss[4])
             + TextSize(ss[7]) + TextSize(ss[8]) + TextSize(ss[9]))
  {
  }

  lemma ClockDescriptionLine()
    ensures Line(CLOCK_DESCRIPTION).size == -2 && Layout(CLOCK_DESCRIPTION) == ClockDescription(End)
  {
  }

  lemma PlannedCounted(id: MngId, ss: seq<Slot>)
    requires Line(id).size == -2 && CountedSize(id, ss) >= 0
    ensures PlannedSize(id, Some(ss)) == RoundEven(CountedSize(id, ss))
  {
  }

  /** One more character in a text is enough for the plan to be an octet short. */
  lemma ClockDescriptionShort()
    ensures exists ss ::
      && ChainFits(Layout(CLOCK_DESCRIPTION), ss)
      && PlannedSize(CLOCK_DESCRIPTION, Some(ss)) == |ChainEnc(Layout(CLOCK_DESCRIPTION), ss)| - 1
  {
    hide Line, ChainEnc, ChainFits, EmptySlots, ClockDescription, PlannedSize, CountedSize;
    ClockDescriptionLine();
    var ss := EmptySlots(ClockDescription(End));
    var more := LongerText(ss);
    CountedSizeAgrees(CLOCK_DESCRIPTION, ss);
    CountedSizeAgrees(CLOCK_DESCRIPTION, more);
    var odd := if CountedSize(CLOCK_DESCRIPTION, ss) % 2 == 0 then ss else more;
    PlannedCounted(CLOCK_DESCRIPTION, odd);
  }

  lemma LongerText(ss: seq<Slot>) returns (more: seq<Slot>)
    requires ChainFits(ClockDescription(End), ss)
    requires ss == EmptySlots(ClockDescription(End))
    ensures ChainFits(ClockDescription(End), more)
    ensures CountedSize(CLOCK_DESCRIPTION, more) == CountedSize(CLOCK_DESCRIPTION, ss) + 1 > 0
  {
    hide Varies, Grown, WellFormed, SlotsSize;
    ClockDescriptionSize(ss);
    var v := Scalar(Bytes([65]));
    more := ss[1 := v];
    assert more[1..][1..] == ss[1..][1..];
    assert ss[1] == Scalar(Bytes([]));
  }
}
