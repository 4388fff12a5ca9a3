/**
 The management identifiers and, for each, the chain of `proc` calls that both
 builds and parses its dataField.

 A chain is data: `Proc(f, next)` stands for `proc(f) || next`. The structures that
 several TLVs share (PortIdentity, ClockQuality, ...) prepend their own fields.
 */
module TlvLayout {
  import opened Octets

  /** One `proc` call on one member of a TLV structure. */
  datatype Field =
    | U(width: nat)            // unsigned integer or enumerator, network order
    | S(width: nat)            // signed integer, network order
    | U48                      // UInteger48, its range is checked on build
    | Le64                     // unsigned 64 bits, little endian
    | Oct(count: nat)          // fixed array of octets
    | Text                     // PTPText: length octet and characters
    | Blob                     // 16 bits length and octets
    | Reserved                 // procRes: a zero octet, ignored on parse
    | Flags(mask: nat)         // procFlags

  /** A record, as `proc(FaultRecord_t &)` and its siblings handle it.
      A self-sized record starts with a 16 bits length that covers itself. */
  datatype Rec = Rec(selfSized: bool, fields: seq<Field>)

  datatype Item =
    | One(f: Field)
    | Counted(countWidth: nat, signedCount: bool, rec: Rec)   // vector_f
    | Rest(rec: Rec)                                          // vector_o

  datatype Chain = End | Proc(item: Item, next: Chain)

  function P(f: Field, next: Chain): (c: Chain)
    ensures Grown(c, FieldSize(f), next)
    ensures FixedChain(c) == (!f.Text? && !f.Blob? && FixedChain(next))
  {
    Proc(One(f), next)
  }

  function P2(f: Field, g: Field, next: Chain): Chain { P(f, P(g, next)) }

  function P3(f: Field, g: Field, h: Field, next: Chain): Chain { P(f, P2(g, h, next)) }

  function P4(f: Field, g: Field, h: Field, i: Field, next: Chain): Chain { P2(f, g, P2(h, i, next)) }

  function PortIdentity(next: Chain): (c: Chain)
    ensures Grown(c, 10, next) && FixedChain(c) == FixedChain(next)
  {
    P2(Oct(8), U(2), next)
  }

  function ClockQuality(next: Chain): (c: Chain)
    ensures Grown(c, 4, next) && FixedChain(c) == FixedChain(next)
  {
    P3(U(1), U(1), U(2), next)
  }

  function Timestamp(next: Chain): Chain { P2(U48, U(4), next) }

  function PortAddress(next: Chain): Chain { P2(U(2), Blob, next) }

  function Le64s(n: nat, next: Chain): (c: Chain)
    ensures ChainSize(c) == 8 * n + ChainSize(next)
    ensures FixedChain(next) ==> FixedChain(c)
    ensures WellFormed(next) ==> WellFormed(c)
    ensures n > 0 ==> c.Proc?
  {
    if n == 0 then next else P(Le64, Le64s(n - 1, next))
  }

  const FAULT_RECORD := Rec(true, [U48, U(4), U(1), Text, Text, Text])
  const PORT_ADDRESS := Rec(false, [U(2), Blob])
  const ACCEPTABLE_MASTER := Rec(false, [Oct(8), U(2), U(1)])
  const CLOCK_IDENTITY := Rec(false, [Oct(8)])
  const UNICAST_MASTER_NP :=
    Rec(false, [Oct(8), U(2), U(1), U(1), U(2), U(1), U(1), U(1), U(1), U(2), Blob])

  // Sizes and shapes of chains

  function RoundEven(n: nat): nat { n + n % 2 }

  /** The octets of a field of fixed size, 0 for the others. */
  function FieldSize(f: Field): nat {
    match f
    case U(w) => w
    case S(w) => w
    case U48 => 6
    case Le64 => 8
    case Oct(k) => k
    case Reserved => 1
    case Flags(_) => 1
    case _ => 0
  }

  function FieldsSize(fs: seq<Field>): nat {
    if fs == [] then 0 else FieldSize(fs[0]) + FieldsSize(fs[1..])
  }

  /** A record without texts and addresses always takes as many octets, more than a pad. */
  predicate FixedRec(rec: Rec) {
    !rec.selfSized && (forall f :: f in rec.fields ==> !f.Text? && !f.Blob?) && FieldsSize(rec.fields) > 1
  }

  /** The fewest octets a field takes: texts and addresses have their length in front. */
  function FieldLeast(f: Field): nat { if f.Text? then 1 else if f.Blob? then 2 else FieldSize(f) }

  function FieldsLeast(fs: seq<Field>): nat {
    if fs == [] then 0 else FieldLeast(fs[0]) + FieldsLeast(fs[1..])
  }

  function RecLeast(rec: Rec): nat { (if rec.selfSized then 2 else 0) + FieldsLeast(rec.fields) }

  /** Counts have one or two octets, and every record takes some. */
  predicate WellFormedItem(item: Item) {
    && (item.Rest? ==> FixedRec(item.rec))
    && (item.Counted? ==> 0 < item.countWidth <= 2 && RecLeast(item.rec) > 0)
  }

  /** A list without a count takes all that is left, so it can only end a chain. */
  predicate WellFormed(c: Chain) {
    match c
    case End => true
    case Proc(item, next) => WellFormedItem(item) && (item.Rest? ==> next.End?) && WellFormed(next)
  }

  predicate FixedChain(c: Chain) {
    match c
    case End => true
    case Proc(item, next) => item.One? && !item.f.Text? && !item.f.Blob? && FixedChain(next)
  }

  function ChainSize(c: Chain): nat {
    match c
    case End => 0
    case Proc(item, next) => (if item.One? then FieldSize(item.f) else 0) + ChainSize(next)
  }

  /** A chain with `n` octets of single fields in front of another. */
  predicate Grown(c: Chain, n: nat, next: Chain) {
    c.Proc? && ChainSize(c) == n + ChainSize(next) && WellFormed(c) == WellFormed(next)
  }

  datatype Shape = Shape(some: bool, wellFormed: bool, fixed: bool, size: nat)

  function ShapeOf(c: Chain): Shape { Shape(c.Proc?, WellFormed(c), FixedChain(c), RoundEven(ChainSize(c))) }

  /** A dataField of a fixed even number of octets, the pad included. */
  predicate Sized(c: Chain, n: nat) { ShapeOf(c) == Shape(true, true, true, n) }

  /** A dataField whose length depends on its values. */
  predicate Varies(c: Chain) { ShapeOf(c).(fixed := false, size := 0) == Shape(true, true, false, 0) }

  // The chains of the `_f` functions, in front of what comes `next`. TLVs of a single
  // member share theirs.

  function ClockDescription(next: Chain): (c: Chain)
    ensures next.End? ==> Varies(c)
  {
    P3(U(2), Text, Blob, PortAddress(P2(Oct(3), Reserved, P4(Text, Text, Text, Oct(6), next))))
  }

  function UserDescription(next: Chain): (c: Chain)
    ensures next.End? ==> Varies(c)
  {
    P(Text, next)
  }

  function OneUnsigned16(next: Chain): (c: Chain)
    ensures next.End? ==> Sized(c, 2)
  {
    P(U(2), next)
  }

  function FaultLog(next: Chain): (c: Chain)
    ensures next.End? ==> Varies(c)
  {
    Proc(Counted(2, false, FAULT_RECORD), next)
  }

  function DefaultDataSet(next: Chain): (c: Chain)
    ensures next.End? ==> Sized(c, 20)
  {
    hide P, ClockQuality;
    P4(Flags(0x3), Reserved, U(2), U(1), ClockQuality(P3(U(1), Oct(8), U(1), next)))
  }

  function CurrentDataSet(next: Chain): (c: Chain)
    ensures next.End? ==> Sized(c, 18)
  {
    P3(U(2), S(8), S(8), next)
  }

  function ParentDataSet(next: Chain): (c: Chain)
    ensures next.End? ==> Sized(c, 32)
  {
    hide P, PortIdentity, ClockQuality;
    PortIdentity(P2(Flags(0x1), Reserved, P3(U(2), S(4), U(1), ClockQuality(P2(U(1), Oct(8), next)))))
  }

  function TimePropertiesDataSet(next: Chain): (c: Chain)
    ensures next.End? ==> Sized(c, 4)
  {
    P3(S(2), Flags(0x3f), U(1), next)
  }

  function PortDataSet(next: Chain): (c: Chain)
    ensures next.End? ==> Sized(c, 26)
  {
    PortIdentity(P4(U(1), S(1), S(8), S(1), P3(U(1), S(1), U(1), P2(S(1), U(1), next))))
  }

  function OneUnsigned8(next: Chain): (c: Chain)
    ensures next.End? ==> Sized(c, 2)
  {
    P(U(1), next)
  }

  function OneFlag(next: Chain): (c: Chain)
    ensures next.End? ==> Sized(c, 2)
  {
    P(Flags(0x1), next)
  }

  function OneSigned8(next: Chain): (c: Chain)
    ensures next.End? ==> Sized(c, 2)
  {
    P(S(1), next)
  }

  function Time(next: Chain): (c: Chain)
    ensures next.End? ==> Sized(c, 10)
  {
    Timestamp(next)
  }

  function UtcProperties(next: Chain): (c: Chain)
    ensures next.End? ==> Sized(c, 4)
  {
    P2(S(2), Flags(0x7), next)
  }

  function TraceabilityProperties(next: Chain): (c: Chain)
    ensures next.End? ==> Sized(c, 2)
  {
    P(Flags(0x30), next)
  }

  function TimescaleProperties(next: Chain): (c: Chain)
    ensures next.End? ==> Sized(c, 2)
  {
    P2(Flags(0x8), U(1), next)
  }

  function PathTraceList(next: Chain): (c: Chain)
    ensures next.End? ==> Varies(c)
  {
    assert FieldsSize([Oct(8)]) == 8;
    Proc(Rest(CLOCK_IDENTITY), next)
  }

  function GrandmasterClusterTable(next: Chain): (c: Chain)
    ensures next.End? ==> Varies(c)
  {
    P(S(1), Proc(Counted(1, false, PORT_ADDRESS), next))
  }

  function UnicastMasterTable(next: Chain): (c: Chain)
    ensures next.End? ==> Varies(c)
  {
    P(S(1), Proc(Counted(2, false, PORT_ADDRESS), next))
  }

  function AcceptableMasterTable(next: Chain): (c: Chain)
    ensures next.End? ==> Varies(c)
  {
    Proc(Counted(2, true, ACCEPTABLE_MASTER), next)
  }

  function AlternateMaster(next: Chain): (c: Chain)
    ensures next.End? ==> Sized(c, 4)
  {
    P3(Flags(0x1), S(1), U(1), next)
  }

  function AlternateTimeOffsetEnable(next: Chain): (c: Chain)
    ensures next.End? ==> Sized(c, 2)
  {
    P2(U(1), Flags(0x1), next)
  }

  function AlternateTimeOffsetName(next: Chain): (c: Chain)
    ensures next.End? ==> Varies(c)
  {
    P2(U(1), Text, next)
  }

  function AlternateTimeOffsetProperties(next: Chain): (c: Chain)
    ensures next.End? ==> Sized(c, 16)
  {
    P4(U(1), S(4), S(4), U48, next)
  }

  function TransparentClockPortDataSet(next: Chain): (c: Chain)
    ensures next.End? ==> Sized(c, 20)
  {
    PortIdentity(P3(Flags(0x1), S(1), S(8), next))
  }

  function TransparentClockDefaultDataSet(next: Chain): (c: Chain)
    ensures next.End? ==> Sized(c, 12)
  {
    P4(Oct(8), U(2), U(1), U(1), next)
  }

  function ExtPortConfigPortDataSet(next: Chain): (c: Chain)
    ensures next.End? ==> Sized(c, 2)
  {
    P2(Flags(0x1), U(1), next)
  }

  function TimeStatusNp(next: Chain): (c: Chain)
    ensures next.End? ==> Sized(c, 50)
  {
    P4(S(8), S(8), S(4), S(4), P4(U(2), U(2), U(8), U(2), P2(S(4), Oct(8), next)))
  }

  function GrandmasterSettingsNp(next: Chain): (c: Chain)
    ensures next.End? ==> Sized(c, 8)
  {
    ClockQuality(P3(S(2), Flags(0x3f), U(1), next))
  }

  function PortDataSetNp(next: Chain): (c: Chain)
    ensures next.End? ==> Sized(c, 8)
  {
    P2(U(4), S(4), next)
  }

  function SubscribeEventsNp(next: Chain): (c: Chain)
    ensures next.End? ==> Sized(c, 66)
  {
    P2(U(2), Oct(64), next)
  }

  function PortPropertiesNp(next: Chain): (c: Chain)
    ensures next.End? ==> Varies(c)
  {
    PortIdentity(P3(U(1), U(1), Text, next))
  }

  function PortStatsNp(next: Chain): (c: Chain)
    ensures next.End? ==> Sized(c, 266)
  {
    PortIdentity(Le64s(16, Le64s(16, next)))
  }

  function PortServiceStatsNp(next: Chain): (c: Chain)
    ensures next.End? ==> Sized(c, 90)
  {
    PortIdentity(Le64s(10, next))
  }

  function UnicastMasterTableNp(next: Chain): (c: Chain)
    ensures next.End? ==> Varies(c)
  {
    Proc(Counted(2, true, UNICAST_MASTER_NP), next)
  }

  function PortHwclockNp(next: Chain): (c: Chain)
    ensures next.End? ==> Sized(c, 16)
  {
    PortIdentity(P2(S(4), U(1), next))
  }

  function PowerProfileSettingsNp(next: Chain): (c: Chain)
    ensures next.End? ==> Sized(c, 16)
  {
    P4(U(2), U(2), U(4), U(4), P(U(4), next))
  }

  function CmldsInfoNp(next: Chain): (c: Chain)
    ensures next.End? ==> Sized(c, 16)
  {
    P3(S(8), S(4), U(4), next)
  }

  function PortCorrectionsNp(next: Chain): (c: Chain)
    ensures next.End? ==> Sized(c, 24)
  {
    P3(S(8), S(8), S(8), next)
  }

  function ExternalGrandmasterPropertiesNp(next: Chain): (c: Chain)
    ensures next.End? ==> Sized(c, 10)
  {
    P2(Oct(8), U(2), next)
  }

  datatype MngId =
    | NULL_PTP_MANAGEMENT | CLOCK_DESCRIPTION | USER_DESCRIPTION
    | SAVE_IN_NON_VOLATILE_STORAGE | RESET_NON_VOLATILE_STORAGE | INITIALIZE
    | FAULT_LOG | FAULT_LOG_RESET | DEFAULT_DATA_SET | CURRENT_DATA_SET
    | PARENT_DATA_SET | TIME_PROPERTIES_DATA_SET | PORT_DATA_SET | PRIORITY1
    | PRIORITY2 | DOMAIN | SLAVE_ONLY | LOG_ANNOUNCE_INTERVAL
    | ANNOUNCE_RECEIPT_TIMEOUT | LOG_SYNC_INTERVAL | VERSION_NUMBER | ENABLE_PORT
    | DISABLE_PORT | TIME | CLOCK_ACCURACY | UTC_PROPERTIES
    | TRACEABILITY_PROPERTIES | TIMESCALE_PROPERTIES | UNICAST_NEGOTIATION_ENABLE
    | PATH_TRACE_LIST | PATH_TRACE_ENABLE | GRANDMASTER_CLUSTER_TABLE
    | UNICAST_MASTER_TABLE | UNICAST_MASTER_MAX_TABLE_SIZE | ACCEPTABLE_MASTER_TABLE
    | ACCEPTABLE_MASTER_TABLE_ENABLED | ACCEPTABLE_MASTER_MAX_TABLE_SIZE
    | ALTERNATE_MASTER | ALTERNATE_TIME_OFFSET_ENABLE | ALTERNATE_TIME_OFFSET_NAME
    | ALTERNATE_TIME_OFFSET_MAX_KEY | ALTERNATE_TIME_OFFSET_PROPERTIES
    | TRANSPARENT_CLOCK_PORT_DATA_SET | LOG_MIN_PDELAY_REQ_INTERVAL
    | TRANSPARENT_CLOCK_DEFAULT_DATA_SET | PRIMARY_DOMAIN | DELAY_MECHANISM
    | EXTERNAL_PORT_CONFIGURATION_ENABLED | MASTER_ONLY | HOLDOVER_UPGRADE_ENABLE
    | EXT_PORT_CONFIG_PORT_DATA_SET | TIME_STATUS_NP | GRANDMASTER_SETTINGS_NP
    | PORT_DATA_SET_NP | SUBSCRIBE_EVENTS_NP | PORT_PROPERTIES_NP | PORT_STATS_NP
    | SYNCHRONIZATION_UNCERTAIN_NP | PORT_SERVICE_STATS_NP | UNICAST_MASTER_TABLE_NP
    | PORT_HWCLOCK_NP | POWER_PROFILE_SETTINGS_NP | CMLDS_INFO_NP
    | PORT_CORRECTIONS_NP | EXTERNAL_GRANDMASTER_PROPERTIES_NP

  /** The managementId on the wire. */
  function IdValue(id: MngId): nat {
    match id
    case NULL_PTP_MANAGEMENT => 0x0000
    case CLOCK_DESCRIPTION => 0x0001
    case USER_DESCRIPTION => 0x0002
    case SAVE_IN_NON_VOLATILE_STORAGE => 0x0003
    case RESET_NON_VOLATILE_STORAGE => 0x0004
    case INITIALIZE => 0x0005
    case FAULT_LOG => 0x0006
    case FAULT_LOG_RESET => 0x0007
    case DEFAULT_DATA_SET => 0x2000
    case CURRENT_DATA_SET => 0x2001
    case PARENT_DATA_SET => 0x2002
    case TIME_PROPERTIES_DATA_SET => 0x2003
    case PORT_DATA_SET => 0x2004
    case PRIORITY1 => 0x2005
    case PRIORITY2 => 0x2006
    case DOMAIN => 0x2007
    case SLAVE_ONLY => 0x2008
    case LOG_ANNOUNCE_INTERVAL => 0x2009
    case ANNOUNCE_RECEIPT_TIMEOUT => 0x200a
    case LOG_SYNC_INTERVAL => 0x200b
    case VERSION_NUMBER => 0x200c
    case ENABLE_PORT => 0x200d
    case DISABLE_PORT => 0x200e
    case TIME => 0x200f
    case CLOCK_ACCURACY => 0x2010
    case UTC_PROPERTIES => 0x2011
    case TRACEABILITY_PROPERTIES => 0x2012
    case TIMESCALE_PROPERTIES => 0x2013
    case UNICAST_NEGOTIATION_ENABLE => 0x2014
    case PATH_TRACE_LIST => 0x2015
    case PATH_TRACE_ENABLE => 0x2016
    case GRANDMASTER_CLUSTER_TABLE => 0x2017
    case UNICAST_MASTER_TABLE => 0x2018
    case UNICAST_MASTER_MAX_TABLE_SIZE => 0x2019
    case ACCEPTABLE_MASTER_TABLE => 0x201a
    case ACCEPTABLE_MASTER_TABLE_ENABLED => 0x201b
    case ACCEPTABLE_MASTER_MAX_TABLE_SIZE => 0x201c
    case ALTERNATE_MASTER => 0x201d
    case ALTERNATE_TIME_OFFSET_ENABLE => 0x201e
    case ALTERNATE_TIME_OFFSET_NAME => 0x201f
    case ALTERNATE_TIME_OFFSET_MAX_KEY => 0x2020
    case ALTERNATE_TIME_OFFSET_PROPERTIES => 0x2021
    case TRANSPARENT_CLOCK_PORT_DATA_SET => 0x4001
    case LOG_MIN_PDELAY_REQ_INTERVAL => 0x6001
    case TRANSPARENT_CLOCK_DEFAULT_DATA_SET => 0x4000
    case PRIMARY_DOMAIN => 0x4002
    case DELAY_MECHANISM => 0x6000
    case EXTERNAL_PORT_CONFIGURATION_ENABLED => 0x3000
    case MASTER_ONLY => 0x3001
    case HOLDOVER_UPGRADE_ENABLE => 0x3002
    case EXT_PORT_CONFIG_PORT_DATA_SET => 0x3003
    case TIME_STATUS_NP => 0xc000
    case GRANDMASTER_SETTINGS_NP => 0xc001
    case PORT_DATA_SET_NP => 0xc002
    case SUBSCRIBE_EVENTS_NP => 0xc003
    case PORT_PROPERTIES_NP => 0xc004
    case PORT_STATS_NP => 0xc005
    case SYNCHRONIZATION_UNCERTAIN_NP => 0xc006
    case PORT_SERVICE_STATS_NP => 0xc007
    case UNICAST_MASTER_TABLE_NP => 0xc008
    case PORT_HWCLOCK_NP => 0xc009
    case POWER_PROFILE_SETTINGS_NP => 0xc00a
    case CMLDS_INFO_NP => 0xc00b
    case PORT_CORRECTIONS_NP => 0xc00c
    case EXTERNAL_GRANDMASTER_PROPERTIES_NP => 0xc00d
  }

  function FindGeneral(v: nat): Option<MngId> {
    match v
    case 0x0000 => Some(NULL_PTP_MANAGEMENT)
    case 0x0001 => Some(CLOCK_DESCRIPTION)
    case 0x0002 => Some(USER_DESCRIPTION)
    case 0x0003 => Some(SAVE_IN_NON_VOLATILE_STORAGE)
    case 0x0004 => Some(RESET_NON_VOLATILE_STORAGE)
    case 0x0005 => Some(INITIALIZE)
    case 0x0006 => Some(FAULT_LOG)
    case 0x0007 => Some(FAULT_LOG_RESET)
    case _ => None
  }

  function FindDataSets(v: nat): Option<MngId> {
    match v
    case 0x2000 => Some(DEFAULT_DATA_SET)
    case 0x2001 => Some(CURRENT_DATA_SET)
    case 0x2002 => Some(PARENT_DATA_SET)
    case 0x2003 => Some(TIME_PROPERTIES_DATA_SET)
    case 0x2004 => Some(PORT_DATA_SET)
    case 0x2005 => Some(PRIORITY1)
    case 0x2006 => Some(PRIORITY2)
    case 0x2007 => Some(DOMAIN)
    case _ => None
  }

  function FindMembers(v: nat): Option<MngId> {
    match v
    case 0x2008 => Some(SLAVE_ONLY)
    case 0x2009 => Some(LOG_ANNOUNCE_INTERVAL)
    case 0x200a => Some(ANNOUNCE_RECEIPT_TIMEOUT)
    case 0x200b => Some(LOG_SYNC_INTERVAL)
    case 0x200c => Some(VERSION_NUMBER)
    case 0x200d => Some(ENABLE_PORT)
    case 0x200e => Some(DISABLE_PORT)
    case 0x200f => Some(TIME)
    case _ => None
  }

  function FindProperties(v: nat): Option<MngId> {
    match v
    case 0x2010 => Some(CLOCK_ACCURACY)
    case 0x2011 => Some(UTC_PROPERTIES)
    case 0x2012 => Some(TRACEABILITY_PROPERTIES)
    case 0x2013 => Some(TIMESCALE_PROPERTIES)
    case 0x2014 => Some(UNICAST_NEGOTIATION_ENABLE)
    case 0x2015 => Some(PATH_TRACE_LIST)
    case 0x2016 => Some(PATH_TRACE_ENABLE)
    case 0x2017 => Some(GRANDMASTER_CLUSTER_TABLE)
    case _ => None
  }

  function FindMasters(v: nat): Option<MngId> {
    match v
    case 0x2018 => Some(UNICAST_MASTER_TABLE)
    case 0x2019 => Some(UNICAST_MASTER_MAX_TABLE_SIZE)
    case 0x201a => Some(ACCEPTABLE_MASTER_TABLE)
    case 0x201b => Some(ACCEPTABLE_MASTER_TABLE_ENABLED)
    case 0x201c => Some(ACCEPTABLE_MASTER_MAX_TABLE_SIZE)
    case 0x201d => Some(ALTERNATE_MASTER)
    case 0x201e => Some(ALTERNATE_TIME_OFFSET_ENABLE)
    case 0x201f => Some(ALTERNATE_TIME_OFFSET_NAME)
    case 0x2020 => Some(ALTERNATE_TIME_OFFSET_MAX_KEY)
    case 0x2021 => Some(ALTERNATE_TIME_OFFSET_PROPERTIES)
    case _ => None
  }

  function FindOptions(v: nat): Option<MngId> {
    match v
    case 0x3000 => Some(EXTERNAL_PORT_CONFIGURATION_ENABLED)
    case 0x3001 => Some(MASTER_ONLY)
    case 0x3002 => Some(HOLDOVER_UPGRADE_ENABLE)
    case 0x3003 => Some(EXT_PORT_CONFIG_PORT_DATA_SET)
    case 0x4000 => Some(TRANSPARENT_CLOCK_DEFAULT_DATA_SET)
    case 0x4001 => Some(TRANSPARENT_CLOCK_PORT_DATA_SET)
    case 0x4002 => Some(PRIMARY_DOMAIN)
    case 0x6000 => Some(DELAY_MECHANISM)
    case 0x6001 => Some(LOG_MIN_PDELAY_REQ_INTERVAL)
    case _ => None
  }

  function FindNp(v: nat): Option<MngId> {
    match v
    case 0xc000 => Some(TIME_STATUS_NP)
    case 0xc001 => Some(GRANDMASTER_SETTINGS_NP)
    case 0xc002 => Some(PORT_DATA_SET_NP)
    case 0xc003 => Some(SUBSCRIBE_EVENTS_NP)
    case 0xc004 => Some(PORT_PROPERTIES_NP)
    case 0xc005 => Some(PORT_STATS_NP)
    case 0xc006 => Some(SYNCHRONIZATION_UNCERTAIN_NP)
    case _ => None
  }

  function FindNpMore(v: nat): Option<MngId> {
    match v
    case 0xc007 => Some(PORT_SERVICE_STATS_NP)
    case 0xc008 => Some(UNICAST_MASTER_TABLE_NP)
    case 0xc009 => Some(PORT_HWCLOCK_NP)
    case 0xc00a => Some(POWER_PROFILE_SETTINGS_NP)
    case 0xc00b => Some(CMLDS_INFO_NP)
    case 0xc00c => Some(PORT_CORRECTIONS_NP)
    case 0xc00d => Some(EXTERNAL_GRANDMASTER_PROPERTIES_NP)
    case _ => None
  }

  /** `findTlvId`, before it blocks the linuxptp identifiers. */
  function FindId(v: nat): Option<MngId> {
    if v < 0x2000 then FindGeneral(v)
    else if v < 0x2008 then FindDataSets(v)
    else if v < 0x2010 then FindMembers(v)
    else if v < 0x2018 then FindProperties(v)
    else if v < 0x3000 then FindMasters(v)
    else if v < 0xc000 then FindOptions(v)
    else if v < 0xc007 then FindNp(v)
    else FindNpMore(v)
  }

  /** Every identifier is found by its value, so no two of them share one. */
  lemma FindIdValue(id: MngId)
    ensures FindId(IdValue(id)) == Some(id)
  {
    hide FindId, IdValue;
    if IdValue(id) < 0x2008 { FindLowValue(id); }
    else if IdValue(id) < 0x2018 { FindMidValue(id); }
    else if IdValue(id) < 0x3000 { FindTableValue(id); }
    else { FindHighValue(id); }
  }

  lemma FindLowValue(id: MngId)
    requires IdValue(id) < 0x2008
    ensures FindId(IdValue(id)) == Some(id)
  {
    hide FindMembers, FindProperties, FindMasters, FindOptions, FindNp, FindNpMore;
  }

  lemma FindMidValue(id: MngId)
    requires 0x2008 <= IdValue(id) < 0x2018
    ensures FindId(IdValue(id)) == Some(id)
  {
    hide FindGeneral, FindDataSets, FindMasters, FindOptions, FindNp, FindNpMore;
  }

  lemma FindTableValue(id: MngId)
    requires 0x2018 <= IdValue(id) < 0x3000
    ensures FindId(IdValue(id)) == Some(id)
  {
    hide FindGeneral, FindDataSets, FindMembers, FindProperties, FindOptions, FindNp, FindNpMore;
  }

  lemma FindHighValue(id: MngId)
    requires IdValue(id) >= 0x3000
    ensures FindId(IdValue(id)) == Some(id)
  {
    hide FindGeneral, FindDataSets, FindMembers, FindProperties, FindMasters;
  }

  /** The actions an identifier allows; `np` marks the linuxptp extensions. */
  datatype Allowed = Allowed(get: bool, set_: bool, command: bool, np: bool)

  const GSC := Allowed(true, true, true, false)
  const G := Allowed(true, false, false, false)
  const GS := Allowed(true, true, false, false)
  const C := Allowed(false, false, true, false)
  const GL := Allowed(true, false, false, true)
  const GSL := Allowed(true, true, false, true)

  /** One line of the identifiers table. A size of 0 marks an identifier without a
      dataField, -2 a dataField whose length depends on its values. */
  datatype IdLine = IdLine(allowed: Allowed, size: int, chain: Chain)

  /** A chain can be read back, and the size column tells the octets of a dataField of
      fixed length, with the pad octet that makes them even. */
  predicate Agrees(l: IdLine) {
    if l.size == 0 then l.chain.End?
    else if l.size > 0 then Sized(l.chain, l.size)
    else l.size == -2 && Varies(l.chain)
  }

  /** The dataFields whose length depends on their values, which have a `_s` function. */
  function VariableLayout(id: MngId): (c: Chain)
    ensures c.End? || Varies(c)
  {
    match id
    case CLOCK_DESCRIPTION => ClockDescription(End)
    case USER_DESCRIPTION => UserDescription(End)
    case FAULT_LOG => FaultLog(End)
    case PATH_TRACE_LIST => PathTraceList(End)
    case GRANDMASTER_CLUSTER_TABLE => GrandmasterClusterTable(End)
    case UNICAST_MASTER_TABLE => UnicastMasterTable(End)
    case ACCEPTABLE_MASTER_TABLE => AcceptableMasterTable(End)
    case ALTERNATE_TIME_OFFSET_NAME => AlternateTimeOffsetName(End)
    case PORT_PROPERTIES_NP => PortPropertiesNp(End)
    case UNICAST_MASTER_TABLE_NP => UnicastMasterTableNp(End)
    case _ => End
  }

  const NO_DATA := IdLine(GSC, 0, End)

  /** The identifiers whose dataField length depends on its values. */
  function VariableLine(id: MngId): (l: IdLine)
    requires VariableLayout(id).Proc?
    ensures Agrees(l) && l.size == -2 && l.chain == VariableLayout(id)
  {
    hide VariableLayout;
    var c := VariableLayout(id);
    match id
    case CLOCK_DESCRIPTION => IdLine(G, -2, c)
    case USER_DESCRIPTION => IdLine(GS, -2, c)
    case FAULT_LOG => IdLine(G, -2, c)
    case PATH_TRACE_LIST => IdLine(G, -2, c)
    case GRANDMASTER_CLUSTER_TABLE => IdLine(GS, -2, c)
    case UNICAST_MASTER_TABLE => IdLine(GS, -2, c)
    case ACCEPTABLE_MASTER_TABLE => IdLine(GS, -2, c)
    case ALTERNATE_TIME_OFFSET_NAME => IdLine(GS, -2, c)
    case PORT_PROPERTIES_NP => IdLine(GL, -2, c)
    case _ => IdLine(GL, -2, c)
  }

  /** The general part of the table. */
  function GeneralLine(id: MngId): (l: IdLine)
    ensures Agrees(l) && l.size >= 0
  {
    hide Sized, Varies;
    match id
    case NULL_PTP_MANAGEMENT => IdLine(GSC, 0, End)
    case SAVE_IN_NON_VOLATILE_STORAGE => IdLine(C, 0, End)
    case RESET_NON_VOLATILE_STORAGE => IdLine(C, 0, End)
    case INITIALIZE => IdLine(C, 2, OneUnsigned16(End))
    case FAULT_LOG_RESET => IdLine(C, 0, End)
    case _ => NO_DATA
  }

  /** The data sets and their members. */
  function DataSetsLine(id: MngId): (l: IdLine)
    ensures Agrees(l) && l.size >= 0
  {
    hide Sized, Varies;
    match id
    case DEFAULT_DATA_SET => IdLine(G, 20, DefaultDataSet(End))
    case CURRENT_DATA_SET => IdLine(G, 18, CurrentDataSet(End))
    case PARENT_DATA_SET => IdLine(G, 32, ParentDataSet(End))
    case TIME_PROPERTIES_DATA_SET => IdLine(G, 4, TimePropertiesDataSet(End))
    case PORT_DATA_SET => IdLine(G, 26, PortDataSet(End))
    case PRIORITY1 => IdLine(GS, 2, OneUnsigned8(End))
    case PRIORITY2 => IdLine(GS, 2, OneUnsigned8(End))
    case DOMAIN => IdLine(GS, 2, OneUnsigned8(End))
    case SLAVE_ONLY => IdLine(GS, 2, OneFlag(End))
    case LOG_ANNOUNCE_INTERVAL => IdLine(GS, 2, OneSigned8(End))
    case ANNOUNCE_RECEIPT_TIMEOUT => IdLine(GS, 2, OneUnsigned8(End))
    case LOG_SYNC_INTERVAL => IdLine(GS, 2, OneSigned8(End))
    case VERSION_NUMBER => IdLine(GS, 2, OneUnsigned8(End))
    case ENABLE_PORT => IdLine(C, 0, End)
    case DISABLE_PORT => IdLine(C, 0, End)
    case _ => NO_DATA
  }

  /** Time properties, path trace and the tables of masters. */
  function SettingsLine(id: MngId): (l: IdLine)
    ensures Agrees(l) && l.size >= 0
  {
    hide Sized, Varies;
    match id
    case TIME => IdLine(GS, 10, Time(End))
    case CLOCK_ACCURACY => IdLine(GS, 2, OneUnsigned8(End))
    case UTC_PROPERTIES => IdLine(GS, 4, UtcProperties(End))
    case TRACEABILITY_PROPERTIES => IdLine(GS, 2, TraceabilityProperties(End))
    case TIMESCALE_PROPERTIES => IdLine(GS, 2, TimescaleProperties(End))
    case UNICAST_NEGOTIATION_ENABLE => IdLine(GS, 2, OneFlag(End))
    case PATH_TRACE_ENABLE => IdLine(GS, 2, OneFlag(End))
    case UNICAST_MASTER_MAX_TABLE_SIZE => IdLine(G, 2, OneUnsigned16(End))
    case ACCEPTABLE_MASTER_TABLE_ENABLED => IdLine(GS, 2, OneFlag(End))
    case _ => NO_DATA
  }

  /** The optional features and the TLVs of IEEE Std 1588-2019. */
  function OptionsLine(id: MngId): (l: IdLine)
    ensures Agrees(l) && l.size >= 0
  {
    hide Sized, Varies;
    match id
    case ACCEPTABLE_MASTER_MAX_TABLE_SIZE => IdLine(G, 2, OneUnsigned16(End))
    case ALTERNATE_MASTER => IdLine(GS, 4, AlternateMaster(End))
    case ALTERNATE_TIME_OFFSET_ENABLE => IdLine(GS, 2, AlternateTimeOffsetEnable(End))
    case ALTERNATE_TIME_OFFSET_MAX_KEY => IdLine(G, 2, OneUnsigned8(End))
    case ALTERNATE_TIME_OFFSET_PROPERTIES => IdLine(GS, 16, AlternateTimeOffsetProperties(End))
    case TRANSPARENT_CLOCK_PORT_DATA_SET => IdLine(G, 20, TransparentClockPortDataSet(End))
    case LOG_MIN_PDELAY_REQ_INTERVAL => IdLine(GS, 2, OneSigned8(End))
    case TRANSPARENT_CLOCK_DEFAULT_DATA_SET => IdLine(G, 12, TransparentClockDefaultDataSet(End))
    case PRIMARY_DOMAIN => IdLine(GS, 2, OneUnsigned8(End))
    case DELAY_MECHANISM => IdLine(GS, 2, OneUnsigned8(End))
    case EXTERNAL_PORT_CONFIGURATION_ENABLED => IdLine(GS, 2, OneFlag(End))
    case MASTER_ONLY => IdLine(GS, 2, OneFlag(End))
    case HOLDOVER_UPGRADE_ENABLE => IdLine(GS, 2, OneFlag(End))
    case EXT_PORT_CONFIG_PORT_DATA_SET => IdLine(GS, 2, ExtPortConfigPortDataSet(End))
    case _ => NO_DATA
  }

  /** The linuxptp extensions. */
  function NpLine(id: MngId): (l: IdLine)
    ensures Agrees(l) && l.size >= 0
  {
    hide Sized, Varies, NpPortLine;
    match id
    case TIME_STATUS_NP => IdLine(GL, 50, TimeStatusNp(End))
    case GRANDMASTER_SETTINGS_NP => IdLine(GSL, 8, GrandmasterSettingsNp(End))
    case PORT_DATA_SET_NP => IdLine(GSL, 8, PortDataSetNp(End))
    case SUBSCRIBE_EVENTS_NP => IdLine(GSL, 66, SubscribeEventsNp(End))
    case PORT_STATS_NP => IdLine(GL, 266, PortStatsNp(End))
    case SYNCHRONIZATION_UNCERTAIN_NP => IdLine(GSL, 2, OneUnsigned8(End))
    case _ => NpPortLine(id)
  }

  function NpPortLine(id: MngId): (l: IdLine)
    ensures Agrees(l) && l.size >= 0
  {
    hide Sized, Varies;
    match id
    case PORT_SERVICE_STATS_NP => IdLine(GL, 90, PortServiceStatsNp(End))
    case PORT_HWCLOCK_NP => IdLine(GL, 16, PortHwclockNp(End))
    case POWER_PROFILE_SETTINGS_NP => IdLine(GSL, 16, PowerProfileSettingsNp(End))
    case CMLDS_INFO_NP => IdLine(GL, 16, CmldsInfoNp(End))
    case PORT_CORRECTIONS_NP => IdLine(GSL, 24, PortCorrectionsNp(End))
    case EXTERNAL_GRANDMASTER_PROPERTIES_NP => IdLine(GSL, 10, ExternalGrandmasterPropertiesNp(End))
    case _ => NO_DATA
  }

  function FixedLine(id: MngId): (l: IdLine)
    ensures Agrees(l) && l.size >= 0
  {
    hide Agrees, GeneralLine, DataSetsLine, SettingsLine, OptionsLine, NpLine;
    match id
    case NULL_PTP_MANAGEMENT | SAVE_IN_NON_VOLATILE_STORAGE | RESET_NON_VOLATILE_STORAGE |
       INITIALIZE | FAULT_LOG_RESET => GeneralLine(id)
    case DEFAULT_DATA_SET | CURRENT_DATA_SET | PARENT_DATA_SET | TIME_PROPERTIES_DATA_SET |
       PORT_DATA_SET | PRIORITY1 | PRIORITY2 | DOMAIN | SLAVE_ONLY | LOG_ANNOUNCE_INTERVAL |
       ANNOUNCE_RECEIPT_TIMEOUT | LOG_SYNC_INTERVAL | VERSION_NUMBER | ENABLE_PORT |
       DISABLE_PORT => DataSetsLine(id)
    case TIME | CLOCK_ACCURACY | UTC_PROPERTIES | TRACEABILITY_PROPERTIES | TIMESCALE_PROPERTIES |
       UNICAST_NEGOTIATION_ENABLE | PATH_TRACE_ENABLE | UNICAST_MASTER_MAX_TABLE_SIZE |
       ACCEPTABLE_MASTER_TABLE_ENABLED => SettingsLine(id)
    case ACCEPTABLE_MASTER_MAX_TABLE_SIZE | ALTERNATE_MASTER | ALTERNATE_TIME_OFFSET_ENABLE |
       ALTERNATE_TIME_OFFSET_MAX_KEY | ALTERNATE_TIME_OFFSET_PROPERTIES |
       TRANSPARENT_CLOCK_PORT_DATA_SET | LOG_MIN_PDELAY_REQ_INTERVAL |
       TRANSPARENT_CLOCK_DEFAULT_DATA_SET | PRIMARY_DOMAIN | DELAY_MECHANISM |
       EXTERNAL_PORT_CONFIGURATION_ENABLED | MASTER_ONLY | HOLDOVER_UPGRADE_ENABLE |
       EXT_PORT_CONFIG_PORT_DATA_SET => OptionsLine(id)
    case _ => NpLine(id)
  }

  /** The line of an identifier. All lines of the table agree with the codec. */
  function Line(id: MngId): (l: IdLine)
    ensures Agrees(l) && (l.size == -2 ==> l.chain == VariableLayout(id))
  {
    hide Agrees, VariableLayout, VariableLine, FixedLine;
    if VariableLayout(id).Proc? then VariableLine(id) else FixedLine(id)
  }

  /** The dataField of an identifier, `End` if it has none. */
  function Layout(id: MngId): Chain { Line(id).chain }

  predicate HasData(id: MngId) { Line(id).size != 0 }
}
