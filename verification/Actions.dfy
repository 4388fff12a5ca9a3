/**
 The actions that the identifiers allow, by their value on the wire.
 */
module TlvActions {
  import opened Octets
  import opened TlvLayout
  import opened TlvCodec
  import opened TlvSizes
  import opened JsonTables
  import opened JsonSchemas
  import opened Framing
  import opened SendingState

  predicate Commanded(v: nat) { v == 0 || 3 <= v <= 5 || v == 7 || v == 0x200d || v == 0x200e }

  predicate Read(v: nat) { !(3 <= v <= 5) && v != 7 && v != 0x200d && v != 0x200e }

  predicate Settable(v: nat) {
    || v == 0 || v == 2 || 0x2005 <= v <= 0x200c || 0x200f <= v <= 0x2014 || 0x2016 <= v <= 0x2018 || v == 0x201a || v == 0x201b
    || 0x201d <= v <= 0x201f || v == 0x2021 || 0x3000 <= v <= 0x3003 || v == 0x4002 || 0x6000 <= v <= 0x6001
    || 0xc001 <= v <= 0xc003 || v == 0xc006 || v == 0xc00a || 0xc00c <= v <= 0xc00d
  }

  predicate WithData(v: nat) { v != 0 && v != 3 && v != 4 && v != 7 && v != 0x200d && v != 0x200e }

  /** The column of the table for the identifier with the value `v`. */
  predicate ColumnIs(v: nat, a: Allowed, data: bool) {
    a == Allowed(Read(v), Settable(v), Commanded(v), v >= 0xc000) && data == WithData(v)
  }

  /** The actions an identifier allows, which of them belong to linuxptp, and which have data. */
  lemma AllowedColumn(id: MngId)
    ensures ColumnIs(IdValue(id), Line(id).allowed, HasData(id))
  {
    hide ColumnIs, IdValue, VariableLine, Agrees, FixedLine, VariableLayout;
    if VariableLayout(id).Proc? { VariableColumn(id); } else { FixedColumn(id); }
  }

  lemma VariableColumn(id: MngId)
    requires VariableLayout(id).Proc?
    ensures ColumnIs(IdValue(id), VariableLine(id).allowed, true)
  {
    hide Agrees, Varies, ClockDescription, UserDescription, FaultLog, PathTraceList, GrandmasterClusterTable;
    hide UnicastMasterTable, AcceptableMasterTable, AlternateTimeOffsetName, PortPropertiesNp, UnicastMasterTableNp;
  }

  lemma FixedColumn(id: MngId)
    requires VariableLayout(id).End?
    ensures ColumnIs(IdValue(id), FixedLine(id).allowed, FixedLine(id).size != 0)
  {
    hide ColumnIs, Agrees, GeneralLine, DataSetsLine, SettingsLine, OptionsLine, NpLine, IdValue, FixedLine, GroupOf, VariableLayout;
    Grouped(id);
    match GroupOf(id)
    case General => GeneralColumn(id);
    case DataSets => DataSetsColumn(id);
    case Settings => SettingsColumn(id);
    case Options => OptionsColumn(id);
    case Np => NpColumn(id);
  }

  lemma GeneralColumn(id: MngId)
    requires GroupOf(id) == General
    ensures ColumnIs(IdValue(id), GeneralLine(id).allowed, GeneralLine(id).size != 0)
  {
    hide Agrees, Sized, Varies, P, P2, P3, P4, PortIdentity, ClockQuality, Timestamp;
  }

  lemma DataSetsColumn(id: MngId)
    requires GroupOf(id) == DataSets
    ensures ColumnIs(IdValue(id), DataSetsLine(id).allowed, DataSetsLine(id).size != 0)
  {
    hide Agrees, Sized, Varies, P, P2, P3, P4, PortIdentity, ClockQuality, Timestamp;
    hide DefaultDataSet, CurrentDataSet, ParentDataSet, TimePropertiesDataSet, PortDataSet, OneUnsigned8, OneSigned8, OneFlag;
  }

  lemma SettingsColumn(id: MngId)
    requires GroupOf(id) == Settings
    ensures ColumnIs(IdValue(id), SettingsLine(id).allowed, SettingsLine(id).size != 0)
  {
    hide Agrees, Sized, Varies, P, P2, P3, P4, PortIdentity, ClockQuality, Timestamp;
    hide Time, UtcProperties, TraceabilityProperties, TimescaleProperties, OneUnsigned8, OneUnsigned16, OneFlag;
  }

  lemma OptionsColumn(id: MngId)
    requires GroupOf(id) == Options
    ensures ColumnIs(IdValue(id), OptionsLine(id).allowed, OptionsLine(id).size != 0)
  {
    hide Agrees, Sized, Varies, P, P2, P3, P4, PortIdentity, ClockQuality, Timestamp;
    hide OneUnsigned16, AlternateMaster, AlternateTimeOffsetEnable, OneUnsigned8, AlternateTimeOffsetProperties, OneSigned8, OneFlag;
    hide TransparentClockPortDataSet, TransparentClockDefaultDataSet, ExtPortConfigPortDataSet;
  }

  lemma NotVariable(id: MngId)
    requires VariableLayout(id).End?
    ensures !id.CLOCK_DESCRIPTION? && !id.USER_DESCRIPTION? && !id.FAULT_LOG? && !id.PATH_TRACE_LIST? && !id.GRANDMASTER_CLUSTER_TABLE?
    ensures !id.UNICAST_MASTER_TABLE? && !id.ACCEPTABLE_MASTER_TABLE? && !id.ALTERNATE_TIME_OFFSET_NAME?
    ensures !id.PORT_PROPERTIES_NP? && !id.UNICAST_MASTER_TABLE_NP?
  {
    hide WellFormed, FixedChain, ChainSize, Grown;
  }

  predicate NpFirst(id: MngId) {
    || id.TIME_STATUS_NP? || id.GRANDMASTER_SETTINGS_NP? || id.PORT_DATA_SET_NP? || id.SUBSCRIBE_EVENTS_NP? || id.PORT_STATS_NP?
    || id.SYNCHRONIZATION_UNCERTAIN_NP?
  }

  predicate NpPort(id: MngId) {
    || id.PORT_SERVICE_STATS_NP? || id.PORT_HWCLOCK_NP? || id.POWER_PROFILE_SETTINGS_NP? || id.CMLDS_INFO_NP?
    || id.PORT_CORRECTIONS_NP? || id.EXTERNAL_GRANDMASTER_PROPERTIES_NP?
  }

  lemma NpIds(id: MngId)
    requires VariableLayout(id).End? && GroupOf(id) == Np
    ensures NpFirst(id) || NpPort(id)
  {
    NotVariable(id);
    hide VariableLayout;
  }

  lemma NpColumn(id: MngId)
    requires VariableLayout(id).End? && GroupOf(id) == Np
    ensures ColumnIs(IdValue(id), NpLine(id).allowed, NpLine(id).size != 0)
  {
    hide VariableLayout, NpFirst, NpPort, IdValue, NpLine, ColumnIs, GroupOf, Agrees;
    NpIds(id);
    if NpFirst(id) { NpFirstColumn(id); } else { NpPortColumn(id); }
  }

  lemma NpFirstColumn(id: MngId)
    requires NpFirst(id)
    ensures ColumnIs(IdValue(id), NpLine(id).allowed, NpLine(id).size != 0)
  {
    FirstLines(id);
    hide NpLine;
    FirstValues(id);
  }

  lemma FirstLines(id: MngId)
    requires NpFirst(id)
    ensures var l := NpLine(id); l.size != 0 && l.allowed == if id.TIME_STATUS_NP? || id.PORT_STATS_NP? then GL else GSL
  {
    hide Agrees, Sized, NpPortLine;
    hide TimeStatusNp, GrandmasterSettingsNp, PortDataSetNp, SubscribeEventsNp, PortStatsNp, OneUnsigned8;
    match id
    case TIME_STATUS_NP =>
    case GRANDMASTER_SETTINGS_NP =>
    case PORT_DATA_SET_NP =>
    case SUBSCRIBE_EVENTS_NP =>
    case PORT_STATS_NP =>
    case SYNCHRONIZATION_UNCERTAIN_NP =>
  }

  lemma FirstValues(id: MngId)
    requires NpFirst(id)
    ensures ColumnIs(IdValue(id), if id.TIME_STATUS_NP? || id.PORT_STATS_NP? then GL else GSL, true)
  {
  }

  lemma NpPortColumn(id: MngId)
    requires NpPort(id)
    ensures ColumnIs(IdValue(id), NpLine(id).allowed, NpLine(id).size != 0)
  {
    hide IdValue, NpLine, ColumnIs;
    NpIsPort(id);
    PortColumn(id);
  }

  lemma NpIsPort(id: MngId)
    requires NpPort(id)
    ensures NpLine(id) == NpPortLine(id)
  {
    hide NpPortLine, Agrees, Sized;
    hide TimeStatusNp, GrandmasterSettingsNp, PortDataSetNp, SubscribeEventsNp, PortStatsNp, OneUnsigned8;
  }

  lemma PortColumn(id: MngId)
    requires NpPort(id)
    ensures ColumnIs(IdValue(id), NpPortLine(id).allowed, NpPortLine(id).size != 0)
  {
    hide Agrees, Sized, PortServiceStatsNp;
    hide PortHwclockNp, PowerProfileSettingsNp, CmldsInfoNp, PortCorrectionsNp, ExternalGrandmasterPropertiesNp;
    PortLines(id);
    hide NpPortLine;
    PortValues(id);
  }

  lemma PortLines(id: MngId)
    requires NpPort(id)
    ensures var l := NpPortLine(id);
      l.size != 0 && l.allowed == if id.PORT_SERVICE_STATS_NP? || id.PORT_HWCLOCK_NP? || id.CMLDS_INFO_NP? then GL else GSL
  {
    hide Agrees, Sized, PortServiceStatsNp;
    hide PortHwclockNp, PowerProfileSettingsNp, CmldsInfoNp, PortCorrectionsNp, ExternalGrandmasterPropertiesNp;
  }

  lemma PortValues(id: MngId)
    requires NpPort(id)
    ensures ColumnIs(IdValue(id), if id.PORT_SERVICE_STATS_NP? || id.PORT_HWCLOCK_NP? || id.CMLDS_INFO_NP? then GL else GSL, true)
  {
  }

  /** What may be sent, in terms of the wire: GET, SET and COMMAND where the column allows them. */
  lemma SendExactly(id: MngId, action: Action, linuxptp: bool)
    ensures var v := IdValue(id);
      MaySend(id, action, linuxptp)
      <==> (v >= 0xc000 ==> linuxptp) && ((action.GET? && Read(v)) || (action.SET? && Settable(v)) || (action.COMMAND? && Commanded(v)))
  {
    hide Line, IdValue;
    AllowedColumn(id);
  }

  /** An answer: ACKNOWLEDGE (4) to a command, RESPONSE (2) to all others. */
  lemma ReplyExactly(id: MngId, action: nat)
    ensures var v := IdValue(id);
      MayReply(id, action) <==> (action == 4 && Commanded(v)) || (action == 2 && (Settable(v) || Read(v)))
  {
    hide Line, IdValue;
    AllowedColumn(id);
  }

  /** `setAction` is accepted if and only if the action may be sent, and SET and COMMAND come with
      data of that identifier if it has any; the action, the identifier and the data are then those
      of the call, and a GET has no data. */
  lemma SetActionExactly(s: Sending, action: Action, id: MngId, data: Option<Tlv>, linuxptp: bool)
    ensures var c, v := SetActionCall(action, id, data), IdValue(id);
      && (CallAllowed(c, linuxptp) <==>
           && MaySend(id, action, linuxptp)
           && (!action.GET? && WithData(v) ==> data.Some? && data.value.id == id))
      && ApplySend(s, c, linuxptp) ==
           if CallAllowed(c, linuxptp) then Sending(action, id, if action.GET? || !WithData(v) then None else data) else s
  {
    hide Line, IdValue;
    AllowedColumn(id);
  }
}
