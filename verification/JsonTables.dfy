/**
 The tables of members of the TLVs, the `proc_` functions of the source, over the members of
 their dataFields that are not lists.
 */
module JsonTables {
  import opened JsonFields
  import opened JsonTyped
  import L = TlvLayout

  // The tables of enumerator names

  const ACCURACY := 0
  const NETWORK := 1
  const SEVERITY := 2
  const TIME_SOURCE := 3
  const PORT_STATE := 4
  const DELAY := 5
  const STAMPING := 6
  const POWER := 7
  const UNICAST := 8

  function U(at: nat, width: nat): Field { Field(at, One(SUnsigned(width))) }

  function S(at: nat, width: nat): Field { Field(at, One(SSigned(width))) }

  function E(at: nat, table: nat): Field { Field(at, One(SEnum(table))) }

  function Simply(at: nat, s: Simple): Field { Field(at, One(s)) }

  function Bits(at: nat, bits: seq<nat>): Field { Field(at, Flags(bits, 0)) }

  function Port(at: nat): Field { Field(at, Struct([SClock, SUnsigned(2)])) }

  function Quality(at: nat): Field { Field(at, Struct([SUnsigned(1), SEnum(ACCURACY), SUnsigned(2)])) }

  function Address(at: nat): Field { Field(at, Struct([SEnum(NETWORK), SBinary])) }

  function Text(at: nat): Field { Simply(at, SText) }

  function Clock(at: nat): Field { Simply(at, SClock) }

  function Length(): Field { Simply(0, SCount) }

  function Only(fields: seq<Field>): Schema { Schema(fields, NoList) }

  /** Ten of the sixteen counters of a direction have a name. */
  function Counters(at: nat): seq<Field> {
    [U(at, 8), U(at + 1, 8), U(at + 2, 8), U(at + 3, 8), U(at + 8, 8), U(at + 9, 8), U(at + 10, 8),
     U(at + 11, 8), U(at + 12, 8), U(at + 13, 8)]
  }

  /** Four events have a name. */
  function Events(at: nat): Field { Field(at, Flags([0, 1, 2, 3], 64)) }

  // ---------------------------------------------------------------- the longer tables

  function ClockDescriptionMembers(list: Lists): Schema {
    Schema([U(0, 2), Text(1), Simply(2, SBinary), Address(3), Simply(5, SOctets(3)), Text(7), Text(8), Text(9),
            Simply(10, SOctets(6))], list)
  }

  function DefaultDataSetMembers(list: Lists): Schema {
    Schema([Bits(0, [0, 1]), U(2, 2), U(3, 1), Quality(4), U(7, 1), Clock(8), U(9, 1)], list)
  }

  function ParentDataSetMembers(list: Lists): Schema {
    Schema([Port(0), Bits(2, [0]), U(4, 2), S(5, 4), U(6, 1), Quality(7), U(10, 1), Clock(11)], list)
  }

  function PortDataSetMembers(list: Lists): Schema {
    Schema([Port(0), E(2, PORT_STATE), S(3, 1), S(4, 8), S(5, 1), U(6, 1), S(7, 1), E(8, DELAY), S(9, 1), U(10, 1)], list)
  }

  function AlternateTimeOffsetPropertiesMembers(list: Lists): Schema {
    Schema([U(0, 1), S(1, 4), S(2, 4), U(3, 8)], list)
  }

  function TransparentClockPortMembers(list: Lists): Schema {
    Schema([Port(0), Bits(2, [0]), S(3, 1), S(4, 8)], list)
  }

  function TransparentClockDefaultMembers(list: Lists): Schema {
    Schema([Clock(0), U(1, 2), E(2, DELAY), U(3, 1)], list)
  }

  function TimeStatusNpMembers(list: Lists): Schema {
    Schema([S(0, 8), S(1, 8), S(2, 4), S(3, 4), U(4, 2), U(5, 2), U(6, 8), U(7, 2), S(8, 4), Clock(9)], list)
  }

  function GrandmasterSettingsNpMembers(list: Lists): Schema {
    Schema([Quality(0), S(3, 2), Bits(4, [0, 1, 2, 3, 4, 5]), E(5, TIME_SOURCE)], list)
  }

  function PortPropertiesNpMembers(list: Lists): Schema {
    Schema([Port(0), E(2, PORT_STATE), E(3, STAMPING), Text(4)], list)
  }

  function PowerProfileSettingsNpMembers(list: Lists): Schema {
    Schema([E(0, POWER), U(1, 2), U(2, 4), U(3, 4), U(4, 4)], list)
  }

  function PortServiceStatsNpMembers(list: Lists): Schema {
    Schema([Port(0), U(2, 8), U(3, 8), U(4, 8), U(5, 8), U(6, 8), U(7, 8), U(8, 8), U(9, 8), U(10, 8), U(11, 8)], list)
  }

  function PortStatsNpMembers(list: Lists): Schema { Schema([Port(0)] + Counters(2) + Counters(18), list) }

  function FaultLogMembers(fields: seq<Field>): Schema {
    Schema(fields, Records([Length(), Simply(0, STime), E(2, SEVERITY), Text(3), Text(4), Text(5)]))
  }

  function GrandmasterClusterTableMembers(fields: seq<Field>): Schema {
    Schema(fields, Records([E(0, NETWORK), Simply(1, SBinary)]))
  }

  function UnicastMasterTableMembers(fields: seq<Field>): Schema {
    Schema(fields, Records([E(0, NETWORK), Simply(1, SBinary)]))
  }

  function AcceptableMasterTableMembers(fields: seq<Field>): Schema { Schema(fields, Records([Port(0), U(2, 1)])) }

  function UnicastMasterTableNpMembers(fields: seq<Field>): Schema {
    Schema(fields, Records([Port(0), Quality(2), Simply(5, STruth), E(6, UNICAST), U(7, 1), U(8, 1), Address(9)]))
  }

  // ---------------------------------------------------------------- the table of an identifier

  /** The dataFields whose length depends on their values. */
  function VariableSchema(id: L.MngId): Schema {
    match id
    case CLOCK_DESCRIPTION => ClockDescriptionMembers(NoList)
    case USER_DESCRIPTION => Only([Text(0)])
    case FAULT_LOG => FaultLogMembers([Length()])
    case PATH_TRACE_LIST => Schema([], Clocks)
    case GRANDMASTER_CLUSTER_TABLE => GrandmasterClusterTableMembers([S(0, 1), Length()])
    case UNICAST_MASTER_TABLE => UnicastMasterTableMembers([S(0, 1), Length()])
    case ACCEPTABLE_MASTER_TABLE => AcceptableMasterTableMembers([Length()])
    case ALTERNATE_TIME_OFFSET_NAME => Only([U(0, 1), Text(1)])
    case PORT_PROPERTIES_NP => PortPropertiesNpMembers(NoList)
    case UNICAST_MASTER_TABLE_NP => UnicastMasterTableNpMembers([Length()])
    case _ => Only([])
  }

  /** The general part. */
  function GeneralSchema(id: L.MngId): Schema {
    match id
    case INITIALIZE => Only([U(0, 2)])
    case _ => Only([])
  }

  /** The data sets and their members. */
  function DataSetsSchema(id: L.MngId): Schema {
    match id
    case DEFAULT_DATA_SET => DefaultDataSetMembers(NoList)
    case CURRENT_DATA_SET => Only([U(0, 2), S(1, 8), S(2, 8)])
    case PARENT_DATA_SET => ParentDataSetMembers(NoList)
    case TIME_PROPERTIES_DATA_SET => Only([S(0, 2), Bits(1, [0, 1, 2, 3, 4, 5]), E(2, TIME_SOURCE)])
    case PORT_DATA_SET => PortDataSetMembers(NoList)
    case SLAVE_ONLY => Only([Bits(0, [0])])
    case LOG_ANNOUNCE_INTERVAL | LOG_SYNC_INTERVAL => Only([S(0, 1)])
    case PRIORITY1 | PRIORITY2 | DOMAIN | ANNOUNCE_RECEIPT_TIMEOUT | VERSION_NUMBER => Only([U(0, 1)])
    case _ => Only([])
  }

  /** Time properties, path trace and the tables of masters. */
  function SettingsSchema(id: L.MngId): Schema {
    match id
    case TIME => Only([Simply(0, STime)])
    case CLOCK_ACCURACY => Only([E(0, ACCURACY)])
    case UTC_PROPERTIES => Only([S(0, 2), Bits(1, [0, 1, 2])])
    case TRACEABILITY_PROPERTIES => Only([Bits(0, [4, 5])])
    case TIMESCALE_PROPERTIES => Only([Bits(0, [3]), E(1, TIME_SOURCE)])
    case UNICAST_MASTER_MAX_TABLE_SIZE => Only([U(0, 2)])
    case UNICAST_NEGOTIATION_ENABLE | PATH_TRACE_ENABLE | ACCEPTABLE_MASTER_TABLE_ENABLED => Only([Bits(0, [0])])
    case _ => Only([])
  }

  /** The optional features. */
  function OptionsSchema(id: L.MngId): Schema {
    match id
    case ACCEPTABLE_MASTER_MAX_TABLE_SIZE => Only([U(0, 2)])
    case ALTERNATE_MASTER => Only([Bits(0, [0]), S(1, 1), U(2, 1)])
    case ALTERNATE_TIME_OFFSET_ENABLE => Only([U(0, 1), Bits(1, [0])])
    case ALTERNATE_TIME_OFFSET_PROPERTIES => AlternateTimeOffsetPropertiesMembers(NoList)
    case TRANSPARENT_CLOCK_PORT_DATA_SET => TransparentClockPortMembers(NoList)
    case LOG_MIN_PDELAY_REQ_INTERVAL => Only([S(0, 1)])
    case TRANSPARENT_CLOCK_DEFAULT_DATA_SET => TransparentClockDefaultMembers(NoList)
    case ALTERNATE_TIME_OFFSET_MAX_KEY | PRIMARY_DOMAIN => Only([U(0, 1)])
    case DELAY_MECHANISM => Only([E(0, DELAY)])
    case EXT_PORT_CONFIG_PORT_DATA_SET => Only([Bits(0, [0]), E(1, PORT_STATE)])
    case EXTERNAL_PORT_CONFIGURATION_ENABLED | MASTER_ONLY | HOLDOVER_UPGRADE_ENABLE => Only([Bits(0, [0])])
    case _ => Only([])
  }

  /** The linuxptp extensions. */
  function NpSchema(id: L.MngId): Schema {
    match id
    case TIME_STATUS_NP => TimeStatusNpMembers(NoList)
    case GRANDMASTER_SETTINGS_NP => GrandmasterSettingsNpMembers(NoList)
    case PORT_DATA_SET_NP => Only([U(0, 4), S(1, 4)])
    case SUBSCRIBE_EVENTS_NP => Only([U(0, 2), Events(1)])
    case PORT_STATS_NP => PortStatsNpMembers(NoList)
    case SYNCHRONIZATION_UNCERTAIN_NP => Only([U(0, 1)])
    case _ => NpPortSchema(id)
  }

  /** Those of ports and power profiles. */
  function NpPortSchema(id: L.MngId): Schema {
    match id
    case PORT_SERVICE_STATS_NP => PortServiceStatsNpMembers(NoList)
    case PORT_HWCLOCK_NP => Only([Port(0), S(2, 4), U(3, 1)])
    case POWER_PROFILE_SETTINGS_NP => PowerProfileSettingsNpMembers(NoList)
    case CMLDS_INFO_NP => Only([S(0, 8), S(1, 4), U(2, 4)])
    case PORT_CORRECTIONS_NP => Only([S(0, 8), S(1, 8), S(2, 8)])
    case EXTERNAL_GRANDMASTER_PROPERTIES_NP => Only([Clock(0), U(1, 2)])
    case _ => Only([])
  }

  datatype Group = General | DataSets | Settings | Options | Np

  /** The part of the identifiers table with the line of a dataField of fixed length. */
  function GroupOf(id: L.MngId): Group {
    match id
    case NULL_PTP_MANAGEMENT | SAVE_IN_NON_VOLATILE_STORAGE | RESET_NON_VOLATILE_STORAGE |
       INITIALIZE | FAULT_LOG_RESET => General
    case DEFAULT_DATA_SET | CURRENT_DATA_SET | PARENT_DATA_SET | TIME_PROPERTIES_DATA_SET |
       PORT_DATA_SET | PRIORITY1 | PRIORITY2 | DOMAIN | SLAVE_ONLY | LOG_ANNOUNCE_INTERVAL |
       ANNOUNCE_RECEIPT_TIMEOUT | LOG_SYNC_INTERVAL | VERSION_NUMBER | ENABLE_PORT |
       DISABLE_PORT => DataSets
    case TIME | CLOCK_ACCURACY | UTC_PROPERTIES | TRACEABILITY_PROPERTIES | TIMESCALE_PROPERTIES |
       UNICAST_NEGOTIATION_ENABLE | PATH_TRACE_ENABLE | UNICAST_MASTER_MAX_TABLE_SIZE |
       ACCEPTABLE_MASTER_TABLE_ENABLED => Settings
    case ACCEPTABLE_MASTER_MAX_TABLE_SIZE | ALTERNATE_MASTER | ALTERNATE_TIME_OFFSET_ENABLE |
       ALTERNATE_TIME_OFFSET_MAX_KEY | ALTERNATE_TIME_OFFSET_PROPERTIES |
       TRANSPARENT_CLOCK_PORT_DATA_SET | LOG_MIN_PDELAY_REQ_INTERVAL |
       TRANSPARENT_CLOCK_DEFAULT_DATA_SET | PRIMARY_DOMAIN | DELAY_MECHANISM |
       EXTERNAL_PORT_CONFIGURATION_ENABLED | MASTER_ONLY | HOLDOVER_UPGRADE_ENABLE |
       EXT_PORT_CONFIG_PORT_DATA_SET => Options
    case _ => Np
  }

  /** The table of an identifier, empty if it has no dataField. */
  function SchemaOf(id: L.MngId): Schema {
    if L.VariableLayout(id).Proc? then VariableSchema(id)
    else
      match GroupOf(id)
      case General => GeneralSchema(id)
      case DataSets => DataSetsSchema(id)
      case Settings => SettingsSchema(id)
      case Options => OptionsSchema(id)
      case Np => NpSchema(id)
  }
}
