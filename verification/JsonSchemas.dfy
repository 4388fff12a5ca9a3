/**
 The table of every identifier matches its dataField, so every TLV that JSON can express
 comes back.
 */
module JsonSchemas {
  import opened Octets
  import opened JsonText
  import opened JsonNumber
  import opened JsonWriting
  import opened JsonFields
  import opened JsonTyped
  import opened JsonTables
  import opened JsonMatching
  import L = TlvLayout
  import C = TlvCodec

  lemma UserDescriptionMatches()
    ensures Matches(L.UserDescription(L.End), Only([Text(0)]), false)
  {
    hide L.Grown, L.FixedChain, L.ShapeOf, L.Sized, L.Varies, Matches, Walked, FlagsMatch;
    FewMatch(L.UserDescription(L.End), [Text(0)]);
  }

  lemma OneUnsigned16Matches()
    ensures Matches(L.OneUnsigned16(L.End), Only([U(0, 2)]), false)
  {
    hide L.Grown, L.FixedChain, L.ShapeOf, L.Sized, L.Varies, Matches, Walked, FlagsMatch;
    FewMatch(L.OneUnsigned16(L.End), [U(0, 2)]);
  }

  lemma CurrentDataSetMatches()
    ensures Matches(L.CurrentDataSet(L.End), Only([U(0, 2), S(1, 8), S(2, 8)]), false)
  {
    hide L.Grown, L.FixedChain, L.ShapeOf, L.Sized, L.Varies, Matches, Walked, FlagsMatch;
    FewMatch(L.CurrentDataSet(L.End), [U(0, 2), S(1, 8), S(2, 8)]);
  }

  lemma TimePropertiesDataSetMatches()
    ensures Matches(L.TimePropertiesDataSet(L.End), Only([S(0, 2), Bits(1, [0, 1, 2, 3, 4, 5]), E(2, TIME_SOURCE)]), false)
  {
    hide L.Grown, L.FixedChain, L.ShapeOf, L.Sized, L.Varies, Walked, Matches, MaskOf;
    MaskValues();
    FewMatch(L.TimePropertiesDataSet(L.End), [S(0, 2), Bits(1, [0, 1, 2, 3, 4, 5]), E(2, TIME_SOURCE)]);
  }

  lemma OneUnsigned8Matches()
    ensures Matches(L.OneUnsigned8(L.End), Only([U(0, 1)]), false)
  {
    hide L.Grown, L.FixedChain, L.ShapeOf, L.Sized, L.Varies, Matches, Walked, FlagsMatch;
    FewMatch(L.OneUnsigned8(L.End), [U(0, 1)]);
  }

  lemma OneNameMatches(table: nat)
    ensures Matches(L.OneUnsigned8(L.End), Only([E(0, table)]), false)
  {
    hide L.Grown, L.FixedChain, L.ShapeOf, L.Sized, L.Varies, Matches, Walked, FlagsMatch;
    FewMatch(L.OneUnsigned8(L.End), [E(0, table)]);
  }

  lemma OneFlagMatches()
    ensures Matches(L.OneFlag(L.End), Only([Bits(0, [0])]), false)
  {
    hide L.Grown, L.FixedChain, L.ShapeOf, L.Sized, L.Varies, Walked, Matches, MaskOf;
    MaskValues();
    FewMatch(L.OneFlag(L.End), [Bits(0, [0])]);
  }

  lemma OneSigned8Matches()
    ensures Matches(L.OneSigned8(L.End), Only([S(0, 1)]), false)
  {
    hide L.Grown, L.FixedChain, L.ShapeOf, L.Sized, L.Varies, Matches, Walked, FlagsMatch;
    FewMatch(L.OneSigned8(L.End), [S(0, 1)]);
  }

  lemma TimeMatches()
    ensures Matches(L.Time(L.End), Only([Simply(0, STime)]), false)
  {
    hide L.Grown, L.FixedChain, L.ShapeOf, L.Sized, L.Varies, Matches, Walked, FlagsMatch;
    FewMatch(L.Time(L.End), [Simply(0, STime)]);
  }

  lemma UtcPropertiesMatches()
    ensures Matches(L.UtcProperties(L.End), Only([S(0, 2), Bits(1, [0, 1, 2])]), false)
  {
    hide L.Grown, L.FixedChain, L.ShapeOf, L.Sized, L.Varies, Walked, Matches, MaskOf;
    MaskValues();
    FewMatch(L.UtcProperties(L.End), [S(0, 2), Bits(1, [0, 1, 2])]);
  }

  lemma TraceabilityPropertiesMatches()
    ensures Matches(L.TraceabilityProperties(L.End), Only([Bits(0, [4, 5])]), false)
  {
    hide L.Grown, L.FixedChain, L.ShapeOf, L.Sized, L.Varies, Walked, Matches, MaskOf;
    MaskValues();
    FewMatch(L.TraceabilityProperties(L.End), [Bits(0, [4, 5])]);
  }

  lemma TimescalePropertiesMatches()
    ensures Matches(L.TimescaleProperties(L.End), Only([Bits(0, [3]), E(1, TIME_SOURCE)]), false)
  {
    hide L.Grown, L.FixedChain, L.ShapeOf, L.Sized, L.Varies, Walked, Matches, MaskOf;
    MaskValues();
    FewMatch(L.TimescaleProperties(L.End), [Bits(0, [3]), E(1, TIME_SOURCE)]);
  }

  lemma AlternateMasterMatches()
    ensures Matches(L.AlternateMaster(L.End), Only([Bits(0, [0]), S(1, 1), U(2, 1)]), false)
  {
    hide L.Grown, L.FixedChain, L.ShapeOf, L.Sized, L.Varies, Walked, Matches, MaskOf;
    MaskValues();
    FewMatch(L.AlternateMaster(L.End), [Bits(0, [0]), S(1, 1), U(2, 1)]);
  }

  lemma AlternateTimeOffsetEnableMatches()
    ensures Matches(L.AlternateTimeOffsetEnable(L.End), Only([U(0, 1), Bits(1, [0])]), false)
  {
    hide L.Grown, L.FixedChain, L.ShapeOf, L.Sized, L.Varies, Walked, Matches, MaskOf;
    MaskValues();
    FewMatch(L.AlternateTimeOffsetEnable(L.End), [U(0, 1), Bits(1, [0])]);
  }

  lemma AlternateTimeOffsetNameMatches()
    ensures Matches(L.AlternateTimeOffsetName(L.End), Only([U(0, 1), Text(1)]), false)
  {
    hide L.Grown, L.FixedChain, L.ShapeOf, L.Sized, L.Varies, Matches, Walked, FlagsMatch;
    FewMatch(L.AlternateTimeOffsetName(L.End), [U(0, 1), Text(1)]);
  }

  lemma ExtPortConfigPortDataSetMatches()
    ensures Matches(L.ExtPortConfigPortDataSet(L.End), Only([Bits(0, [0]), E(1, PORT_STATE)]), false)
  {
    hide L.Grown, L.FixedChain, L.ShapeOf, L.Sized, L.Varies, Walked, Matches, MaskOf;
    MaskValues();
    FewMatch(L.ExtPortConfigPortDataSet(L.End), [Bits(0, [0]), E(1, PORT_STATE)]);
  }

  lemma PortDataSetNpMatches()
    ensures Matches(L.PortDataSetNp(L.End), Only([U(0, 4), S(1, 4)]), false)
  {
    hide L.Grown, L.FixedChain, L.ShapeOf, L.Sized, L.Varies, Matches, Walked, FlagsMatch;
    FewMatch(L.PortDataSetNp(L.End), [U(0, 4), S(1, 4)]);
  }

  lemma SubscribeEventsNpMatches()
    ensures Matches(L.SubscribeEventsNp(L.End), Only([U(0, 2), Events(1)]), false)
  {
    hide L.Grown, L.FixedChain, L.ShapeOf, L.Sized, L.Varies, Walked, Matches;
    FewMatch(L.SubscribeEventsNp(L.End), [U(0, 2), Events(1)]);
  }

  lemma PortHwclockNpMatches()
    ensures Matches(L.PortHwclockNp(L.End), Only([Port(0), S(2, 4), U(3, 1)]), false)
  {
    hide L.Grown, L.FixedChain, L.ShapeOf, L.Sized, L.Varies, Matches, Walked, FlagsMatch;
    FewMatch(L.PortHwclockNp(L.End), [Port(0), S(2, 4), U(3, 1)]);
  }

  lemma CmldsInfoNpMatches()
    ensures Matches(L.CmldsInfoNp(L.End), Only([S(0, 8), S(1, 4), U(2, 4)]), false)
  {
    hide L.Grown, L.FixedChain, L.ShapeOf, L.Sized, L.Varies, Matches, Walked, FlagsMatch;
    FewMatch(L.CmldsInfoNp(L.End), [S(0, 8), S(1, 4), U(2, 4)]);
  }

  lemma PortCorrectionsNpMatches()
    ensures Matches(L.PortCorrectionsNp(L.End), Only([S(0, 8), S(1, 8), S(2, 8)]), false)
  {
    hide L.Grown, L.FixedChain, L.ShapeOf, L.Sized, L.Varies, Matches, Walked, FlagsMatch;
    FewMatch(L.PortCorrectionsNp(L.End), [S(0, 8), S(1, 8), S(2, 8)]);
  }

  lemma ExternalGrandmasterPropertiesNpMatches()
    ensures Matches(L.ExternalGrandmasterPropertiesNp(L.End), Only([Clock(0), U(1, 2)]), false)
  {
    hide L.Grown, L.FixedChain, L.ShapeOf, L.Sized, L.Varies, Matches, Walked, FlagsMatch;
    FewMatch(L.ExternalGrandmasterPropertiesNp(L.End), [Clock(0), U(1, 2)]);
  }

  lemma ClockDescriptionFirst(src: Source, fs: seq<Field>)
    requires src == OfChain(L.ClockDescription(L.End)) && fs == ClockDescriptionMembers(NoList).fields
    ensures Leads(fs, At(src, 0, 0), Reached(src, 1, 1), Reached(src, 2, 2), Reached(src, 3, 3), Reached(src, 5, 4))
  {
    hide L.Grown, L.FixedChain, L.ShapeOf, L.Sized, L.Varies, FlagsMatch;
  }

  lemma ClockDescriptionSecond(src: Source, fs: seq<Field>)
    requires src == OfChain(L.ClockDescription(L.End)) && fs == ClockDescriptionMembers(NoList).fields
    ensures Leads(fs, Reached(src, 5, 4), Reached(src, 6, 5), Reached(src, 7, 5),
                  Reached(src, 8, 6), Reached(src, 9, 7))
  {
    hide L.Grown, L.FixedChain, L.ShapeOf, L.Sized, L.Varies, FlagsMatch;
  }

  lemma ClockDescriptionThird(src: Source, fs: seq<Field>)
    requires src == OfChain(L.ClockDescription(L.End)) && fs == ClockDescriptionMembers(NoList).fields
    ensures Leads(fs, Reached(src, 9, 7), Reached(src, 10, 8), Reached(src, 11, 9), Accepted(None), Accepted(None))
  {
    hide L.Grown, L.FixedChain, L.ShapeOf, L.Sized, L.Varies, FlagsMatch;
  }

  lemma ClockDescriptionMatches()
    ensures Matches(L.ClockDescription(L.End), ClockDescriptionMembers(NoList), false)
  {
    hide Matches, Walked, Step, Reached;
    var c, fs, end := L.ClockDescription(L.End), ClockDescriptionMembers(NoList).fields, Accepted(None);
    var src := OfChain(c);
    ClockDescriptionFirst(src, fs);
    ClockDescriptionSecond(src, fs);
    ClockDescriptionThird(src, fs);
    hide Leads;
    WalkedThrough(src, fs, Reached(src, 1, 1), Reached(src, 2, 2), Reached(src, 3, 3), Reached(src, 5, 4),
                  Reached(src, 6, 5), Reached(src, 7, 5), Reached(src, 8, 6), Reached(src, 9, 7), Reached(src, 10, 8),
                  Reached(src, 11, 9), end, end);
    MembersMatch(c, fs);
  }

  lemma DefaultDataSetFirst(src: Source, fs: seq<Field>)
    requires src == OfChain(L.DefaultDataSet(L.End)) && fs == DefaultDataSetMembers(NoList).fields
    ensures Leads(fs, At(src, 0, 0), Reached(src, 1, 1), Reached(src, 2, 1), Reached(src, 3, 2), Reached(src, 4, 3))
  {
    hide L.Grown, L.FixedChain, L.ShapeOf, L.Sized, L.Varies, MaskOf;
    MaskValues();
  }

  lemma DefaultDataSetSecond(src: Source, fs: seq<Field>)
    requires src == OfChain(L.DefaultDataSet(L.End)) && fs == DefaultDataSetMembers(NoList).fields
    ensures Leads(fs, Reached(src, 4, 3), Reached(src, 7, 4), Reached(src, 8, 5),
                  Reached(src, 9, 6), Reached(src, 10, 7))
  {
    hide L.Grown, L.FixedChain, L.ShapeOf, L.Sized, L.Varies, MaskOf;
    MaskValues();
  }

  lemma DefaultDataSetThird(src: Source, fs: seq<Field>)
    requires src == OfChain(L.DefaultDataSet(L.End)) && fs == DefaultDataSetMembers(NoList).fields
    ensures Leads(fs, Reached(src, 10, 7), Accepted(None), Accepted(None), Accepted(None), Accepted(None))
  {
    hide L.Grown, L.FixedChain, L.ShapeOf, L.Sized, L.Varies, MaskOf;
    MaskValues();
  }

  lemma DefaultDataSetMatches()
    ensures Matches(L.DefaultDataSet(L.End), DefaultDataSetMembers(NoList), false)
  {
    hide Matches, Walked, Step, Reached;
    var c, fs, end := L.DefaultDataSet(L.End), DefaultDataSetMembers(NoList).fields, Accepted(None);
    var src := OfChain(c);
    DefaultDataSetFirst(src, fs);
    DefaultDataSetSecond(src, fs);
    DefaultDataSetThird(src, fs);
    hide Leads;
    WalkedThrough(src, fs, Reached(src, 1, 1), Reached(src, 2, 1), Reached(src, 3, 2), Reached(src, 4, 3),
                  Reached(src, 7, 4), Reached(src, 8, 5), Reached(src, 9, 6), Reached(src, 10, 7), end, end, end,
                  end);
    MembersMatch(c, fs);
  }

  lemma ParentDataSetFirst(src: Source, fs: seq<Field>)
    requires src == OfChain(L.ParentDataSet(L.End)) && fs == ParentDataSetMembers(NoList).fields
    ensures Leads(fs, At(src, 0, 0), Reached(src, 2, 1), Reached(src, 3, 2), Reached(src, 4, 2), Reached(src, 5, 3))
  {
    hide L.Grown, L.FixedChain, L.ShapeOf, L.Sized, L.Varies, MaskOf;
    MaskValues();
  }

  lemma ParentDataSetSecond(src: Source, fs: seq<Field>)
    requires src == OfChain(L.ParentDataSet(L.End)) && fs == ParentDataSetMembers(NoList).fields
    ensures Leads(fs, Reached(src, 5, 3), Reached(src, 6, 4), Reached(src, 7, 5),
                  Reached(src, 10, 6), Reached(src, 11, 7))
  {
    hide L.Grown, L.FixedChain, L.ShapeOf, L.Sized, L.Varies, MaskOf;
    MaskValues();
  }

  lemma ParentDataSetThird(src: Source, fs: seq<Field>)
    requires src == OfChain(L.ParentDataSet(L.End)) && fs == ParentDataSetMembers(NoList).fields
    ensures Leads(fs, Reached(src, 11, 7), Reached(src, 12, 8), Accepted(None), Accepted(None), Accepted(None))
  {
    hide L.Grown, L.FixedChain, L.ShapeOf, L.Sized, L.Varies, MaskOf;
    MaskValues();
  }

  lemma ParentDataSetMatches()
    ensures Matches(L.ParentDataSet(L.End), ParentDataSetMembers(NoList), false)
  {
    hide Matches, Walked, Step, Reached;
    var c, fs, end := L.ParentDataSet(L.End), ParentDataSetMembers(NoList).fields, Accepted(None);
    var src := OfChain(c);
    ParentDataSetFirst(src, fs);
    ParentDataSetSecond(src, fs);
    ParentDataSetThird(src, fs);
    hide Leads;
    WalkedThrough(src, fs, Reached(src, 2, 1), Reached(src, 3, 2), Reached(src, 4, 2), Reached(src, 5, 3),
                  Reached(src, 6, 4), Reached(src, 7, 5), Reached(src, 10, 6), Reached(src, 11, 7),
                  Reached(src, 12, 8), end, end, end);
    MembersMatch(c, fs);
  }

  lemma PortDataSetFirst(src: Source, fs: seq<Field>)
    requires src == OfChain(L.PortDataSet(L.End)) && fs == PortDataSetMembers(NoList).fields
    ensures Leads(fs, At(src, 0, 0), Reached(src, 2, 1), Reached(src, 3, 2), Reached(src, 4, 3), Reached(src, 5, 4))
  {
    hide L.Grown, L.FixedChain, L.ShapeOf, L.Sized, L.Varies, FlagsMatch;
  }

  lemma PortDataSetSecond(src: Source, fs: seq<Field>)
    requires src == OfChain(L.PortDataSet(L.End)) && fs == PortDataSetMembers(NoList).fields
    ensures Leads(fs, Reached(src, 5, 4), Reached(src, 6, 5), Reached(src, 7, 6),
                  Reached(src, 8, 7), Reached(src, 9, 8))
  {
    hide L.Grown, L.FixedChain, L.ShapeOf, L.Sized, L.Varies, FlagsMatch;
  }

  lemma PortDataSetThird(src: Source, fs: seq<Field>)
    requires src == OfChain(L.PortDataSet(L.End)) && fs == PortDataSetMembers(NoList).fields
    ensures Leads(fs, Reached(src, 9, 8), Reached(src, 10, 9), Reached(src, 11, 10), Accepted(None), Accepted(None))
  {
    hide L.Grown, L.FixedChain, L.ShapeOf, L.Sized, L.Varies, FlagsMatch;
  }

  lemma PortDataSetMatches()
    ensures Matches(L.PortDataSet(L.End), PortDataSetMembers(NoList), false)
  {
    hide Matches, Walked, Step, Reached;
    var c, fs, end := L.PortDataSet(L.End), PortDataSetMembers(NoList).fields, Accepted(None);
    var src := OfChain(c);
    PortDataSetFirst(src, fs);
    PortDataSetSecond(src, fs);
    PortDataSetThird(src, fs);
    hide Leads;
    WalkedThrough(src, fs, Reached(src, 2, 1), Reached(src, 3, 2), Reached(src, 4, 3), Reached(src, 5, 4),
                  Reached(src, 6, 5), Reached(src, 7, 6), Reached(src, 8, 7), Reached(src, 9, 8), Reached(src, 10, 9),
                  Reached(src, 11, 10), end, end);
    MembersMatch(c, fs);
  }

  lemma AlternateTimeOffsetPropertiesMatches()
    ensures Matches(L.AlternateTimeOffsetProperties(L.End), AlternateTimeOffsetPropertiesMembers(NoList), false)
  {
    hide L.Grown, L.FixedChain, L.ShapeOf, L.Sized, L.Varies, Matches, Walked, FlagsMatch;
    var c, fs, end := L.AlternateTimeOffsetProperties(L.End), AlternateTimeOffsetPropertiesMembers(NoList).fields, Accepted(None);
    var src := OfChain(c);
    WalkedThrough(src, fs, Reached(src, 1, 1), Reached(src, 2, 2), Reached(src, 3, 3), Reached(src, 4, 4), end, end,
                  end, end, end, end, end, end);
    MembersMatch(c, fs);
  }

  lemma TransparentClockPortMatches()
    ensures Matches(L.TransparentClockPortDataSet(L.End), TransparentClockPortMembers(NoList), false)
  {
    hide L.Grown, L.FixedChain, L.ShapeOf, L.Sized, L.Varies, Walked, Matches, MaskOf;
    MaskValues();
    var c, fs, end := L.TransparentClockPortDataSet(L.End), TransparentClockPortMembers(NoList).fields, Accepted(None);
    var src := OfChain(c);
    WalkedThrough(src, fs, Reached(src, 2, 1), Reached(src, 3, 2), Reached(src, 4, 3), Reached(src, 5, 4), end, end,
                  end, end, end, end, end, end);
    MembersMatch(c, fs);
  }

  lemma TransparentClockDefaultMatches()
    ensures Matches(L.TransparentClockDefaultDataSet(L.End), TransparentClockDefaultMembers(NoList), false)
  {
    hide L.Grown, L.FixedChain, L.ShapeOf, L.Sized, L.Varies, Matches, Walked, FlagsMatch;
    var c, fs, end := L.TransparentClockDefaultDataSet(L.End), TransparentClockDefaultMembers(NoList).fields, Accepted(None);
    var src := OfChain(c);
    WalkedThrough(src, fs, Reached(src, 1, 1), Reached(src, 2, 2), Reached(src, 3, 3), Reached(src, 4, 4), end, end,
                  end, end, end, end, end, end);
    MembersMatch(c, fs);
  }

  lemma TimeStatusNpFirst(src: Source, fs: seq<Field>)
    requires src == OfChain(L.TimeStatusNp(L.End)) && fs == TimeStatusNpMembers(NoList).fields
    ensures Leads(fs, At(src, 0, 0), Reached(src, 1, 1), Reached(src, 2, 2), Reached(src, 3, 3), Reached(src, 4, 4))
  {
    hide L.Grown, L.FixedChain, L.ShapeOf, L.Sized, L.Varies, FlagsMatch;
  }

  lemma TimeStatusNpSecond(src: Source, fs: seq<Field>)
    requires src == OfChain(L.TimeStatusNp(L.End)) && fs == TimeStatusNpMembers(NoList).fields
    ensures Leads(fs, Reached(src, 4, 4), Reached(src, 5, 5), Reached(src, 6, 6),
                  Reached(src, 7, 7), Reached(src, 8, 8))
  {
    hide L.Grown, L.FixedChain, L.ShapeOf, L.Sized, L.Varies, FlagsMatch;
  }

  lemma TimeStatusNpThird(src: Source, fs: seq<Field>)
    requires src == OfChain(L.TimeStatusNp(L.End)) && fs == TimeStatusNpMembers(NoList).fields
    ensures Leads(fs, Reached(src, 8, 8), Reached(src, 9, 9), Reached(src, 10, 10), Accepted(None), Accepted(None))
  {
    hide L.Grown, L.FixedChain, L.ShapeOf, L.Sized, L.Varies, FlagsMatch;
  }

  lemma TimeStatusNpMatches()
    ensures Matches(L.TimeStatusNp(L.End), TimeStatusNpMembers(NoList), false)
  {
    hide Matches, Walked, Step, Reached;
    var c, fs, end := L.TimeStatusNp(L.End), TimeStatusNpMembers(NoList).fields, Accepted(None);
    var src := OfChain(c);
    TimeStatusNpFirst(src, fs);
    TimeStatusNpSecond(src, fs);
    TimeStatusNpThird(src, fs);
    hide Leads;
    WalkedThrough(src, fs, Reached(src, 1, 1), Reached(src, 2, 2), Reached(src, 3, 3), Reached(src, 4, 4),
                  Reached(src, 5, 5), Reached(src, 6, 6), Reached(src, 7, 7), Reached(src, 8, 8), Reached(src, 9, 9),
                  Reached(src, 10, 10), end, end);
    MembersMatch(c, fs);
  }

  lemma GrandmasterSettingsNpMatches()
    ensures Matches(L.GrandmasterSettingsNp(L.End), GrandmasterSettingsNpMembers(NoList), false)
  {
    hide L.Grown, L.FixedChain, L.ShapeOf, L.Sized, L.Varies, Walked, Matches, MaskOf;
    MaskValues();
    var c, fs, end := L.GrandmasterSettingsNp(L.End), GrandmasterSettingsNpMembers(NoList).fields, Accepted(None);
    var src := OfChain(c);
    WalkedThrough(src, fs, Reached(src, 3, 1), Reached(src, 4, 2), Reached(src, 5, 3), Reached(src, 6, 4), end, end,
                  end, end, end, end, end, end);
    MembersMatch(c, fs);
  }

  lemma PortPropertiesNpMatches()
    ensures Matches(L.PortPropertiesNp(L.End), PortPropertiesNpMembers(NoList), false)
  {
    hide L.Grown, L.FixedChain, L.ShapeOf, L.Sized, L.Varies, Matches, Walked, FlagsMatch;
    var c, fs, end := L.PortPropertiesNp(L.End), PortPropertiesNpMembers(NoList).fields, Accepted(None);
    var src := OfChain(c);
    WalkedThrough(src, fs, Reached(src, 2, 1), Reached(src, 3, 2), Reached(src, 4, 3), Reached(src, 5, 4), end, end,
                  end, end, end, end, end, end);
    MembersMatch(c, fs);
  }

  lemma PowerProfileSettingsNpMatches()
    ensures Matches(L.PowerProfileSettingsNp(L.End), PowerProfileSettingsNpMembers(NoList), false)
  {
    hide L.Grown, L.FixedChain, L.ShapeOf, L.Sized, L.Varies, Matches, Walked, FlagsMatch;
    var c, fs, end := L.PowerProfileSettingsNp(L.End), PowerProfileSettingsNpMembers(NoList).fields, Accepted(None);
    var src := OfChain(c);
    WalkedThrough(src, fs, Reached(src, 1, 1), Reached(src, 2, 2), Reached(src, 3, 3), Reached(src, 4, 4),
                  Reached(src, 5, 5), end, end, end, end, end, end, end);
    MembersMatch(c, fs);
  }

  lemma FaultLogFirst(src: Source, fs: seq<Field>)
    requires src == OfFields(L.FAULT_RECORD.fields, 0) && fs == FaultLogMembers([Length()]).list.rec
    ensures Leads(fs, At(src, 0, 0), Reached(src, 0, 1), Reached(src, 2, 2), Reached(src, 3, 3), Reached(src, 4, 4))
  {
    hide FlagsMatch;
  }

  lemma FaultLogSecond(src: Source, fs: seq<Field>)
    requires src == OfFields(L.FAULT_RECORD.fields, 0) && fs == FaultLogMembers([Length()]).list.rec
    ensures Leads(fs, Reached(src, 4, 4), Reached(src, 5, 5), Reached(src, 6, 6), Accepted(None), Accepted(None))
  {
    hide FlagsMatch;
  }

  lemma FaultLogMatches()
    ensures Matches(L.FaultLog(L.End), FaultLogMembers([Length()]), false)
  {
    hide L.Grown, L.FixedChain, L.ShapeOf, L.Sized, L.Varies, Matches, Walked, FlagsMatch;
    var c, item := L.FaultLog(L.End), L.Counted(2, false, L.FAULT_RECORD);
    var rec := FaultLogMembers([Length()]).list.rec;
    var src, end := OfFields(item.rec.fields, 0), Accepted(None);
    WalkedFew(OfChain(c), [Length()]);
    FaultLogFirst(src, rec);
    FaultLogSecond(src, rec);
    StaysAccepted(rec, end);
    hide Step, Reached, Leads;
    WalkedThrough(src, rec, Reached(src, 0, 1), Reached(src, 2, 2), Reached(src, 3, 3), Reached(src, 4, 4),
                  Reached(src, 5, 5), Reached(src, 6, 6), end, end, end, end, end, end);
    RecordsMatch(c, [Length()], item, rec);
  }

  lemma GrandmasterClusterTableMatches()
    ensures Matches(L.GrandmasterClusterTable(L.End), GrandmasterClusterTableMembers([S(0, 1), Length()]), false)
  {
    hide L.Grown, L.FixedChain, L.ShapeOf, L.Sized, L.Varies, Matches, Walked, FlagsMatch;
    var c, item := L.GrandmasterClusterTable(L.End), L.Counted(1, false, L.PORT_ADDRESS);
    var rec := GrandmasterClusterTableMembers([S(0, 1), Length()]).list.rec;
    var src, end := OfFields(item.rec.fields, 0), Accepted(None);
    WalkedFew(OfChain(c), [S(0, 1), Length()]);
    WalkedFew(src, rec);
    RecordsMatch(c, [S(0, 1), Length()], item, rec);
  }

  lemma UnicastMasterTableMatches()
    ensures Matches(L.UnicastMasterTable(L.End), UnicastMasterTableMembers([S(0, 1), Length()]), false)
  {
    hide L.Grown, L.FixedChain, L.ShapeOf, L.Sized, L.Varies, Matches, Walked, FlagsMatch;
    var c, item := L.UnicastMasterTable(L.End), L.Counted(2, false, L.PORT_ADDRESS);
    var rec := UnicastMasterTableMembers([S(0, 1), Length()]).list.rec;
    var src, end := OfFields(item.rec.fields, 0), Accepted(None);
    WalkedFew(OfChain(c), [S(0, 1), Length()]);
    WalkedFew(src, rec);
    RecordsMatch(c, [S(0, 1), Length()], item, rec);
  }

  lemma AcceptableMasterTableMatches()
    ensures Matches(L.AcceptableMasterTable(L.End), AcceptableMasterTableMembers([Length()]), false)
  {
    hide L.Grown, L.FixedChain, L.ShapeOf, L.Sized, L.Varies, Matches, Walked, FlagsMatch;
    var c, item := L.AcceptableMasterTable(L.End), L.Counted(2, true, L.ACCEPTABLE_MASTER);
    var rec := AcceptableMasterTableMembers([Length()]).list.rec;
    var src, end := OfFields(item.rec.fields, 0), Accepted(None);
    WalkedFew(OfChain(c), [Length()]);
    WalkedFew(src, rec);
    RecordsMatch(c, [Length()], item, rec);
  }

  lemma UnicastMasterTableNpFirst(src: Source, fs: seq<Field>)
    requires src == OfFields(L.UNICAST_MASTER_NP.fields, 0) && fs == UnicastMasterTableNpMembers([Length()]).list.rec
    ensures Leads(fs, At(src, 0, 0), Reached(src, 2, 1), Reached(src, 5, 2), Reached(src, 6, 3), Reached(src, 7, 4))
  {
    hide FlagsMatch;
    assert Step(At(src, 0, 0), fs, false) == Reached(src, 2, 1);
    assert Step(Reached(src, 2, 1), fs, false) == Reached(src, 5, 2);
    assert Step(Reached(src, 5, 2), fs, false) == Reached(src, 6, 3);
  }

  lemma UnicastMasterTableNpSecond(src: Source, fs: seq<Field>)
    requires src == OfFields(L.UNICAST_MASTER_NP.fields, 0) && fs == UnicastMasterTableNpMembers([Length()]).list.rec
    ensures Leads(fs, Reached(src, 7, 4), Reached(src, 8, 5), Reached(src, 9, 6), Reached(src, 11, 7), Accepted(None))
  {
    hide FlagsMatch;
    assert Step(Reached(src, 7, 4), fs, false) == Reached(src, 8, 5);
    assert Step(Reached(src, 8, 5), fs, false) == Reached(src, 9, 6);
    assert Step(Reached(src, 9, 6), fs, false) == Reached(src, 11, 7);
  }

  lemma UnicastMasterTableNpMatches()
    ensures Matches(L.UnicastMasterTableNp(L.End), UnicastMasterTableNpMembers([Length()]), false)
  {
    hide L.Grown, L.FixedChain, L.ShapeOf, L.Sized, L.Varies, Matches, Walked, FlagsMatch;
    var c, item := L.UnicastMasterTableNp(L.End), L.Counted(2, true, L.UNICAST_MASTER_NP);
    var rec := UnicastMasterTableNpMembers([Length()]).list.rec;
    var src, end := OfFields(item.rec.fields, 0), Accepted(None);
    WalkedFew(OfChain(c), [Length()]);
    UnicastMasterTableNpFirst(src, rec);
    UnicastMasterTableNpSecond(src, rec);
    StaysAccepted(rec, end);
    hide Step, Reached, Leads;
    WalkedThrough(src, rec, Reached(src, 2, 1), Reached(src, 5, 2), Reached(src, 6, 3), Reached(src, 7, 4),
                  Reached(src, 8, 5), Reached(src, 9, 6), Reached(src, 11, 7), end, end, end, end, end);
    RecordsMatch(c, [Length()], item, rec);
  }

  lemma PathTraceListMatches()
    ensures Matches(L.PathTraceList(L.End), Schema([], Clocks), false)
  {
    hide L.Varies, FlagsMatch, Walked;
    WalkedFew(OfChain(L.PathTraceList(L.End)), []);
  }

  // ---------------------------------------------------------------- counters

  lemma NamedCounter(n: nat, next: L.Chain, at: nat, k: nat, fs: seq<Field>, gaps: bool)
    requires n > 0 && k < |fs| && fs[k] == U(at, 8)
    ensures Step(At(OfChain(L.Le64s(n, next)), at, k), fs, gaps) == At(OfChain(L.Le64s(n - 1, next)), at + 1, k + 1)
  {
    hide L.FixedChain, L.ChainSize, L.WellFormed, L.Grown, FlagsMatch;
  }

  lemma UnnamedCounter(n: nat, next: L.Chain, at: nat, k: nat, fs: seq<Field>)
    requires n > 0 && (k < |fs| ==> fs[k] == U(fs[k].at, 8) && fs[k].at > at)
    ensures Step(At(OfChain(L.Le64s(n, next)), at, k), fs, true) == At(OfChain(L.Le64s(n - 1, next)), at + 1, k)
  {
    hide L.FixedChain, L.ChainSize, L.WellFormed, L.Grown, FlagsMatch;
  }

  /** Counters that have a name, one after the other. */
  lemma {:induction false} NamedRun(m: nat, n: nat, next: L.Chain, at: nat, k: nat, fs: seq<Field>, gaps: bool)
    requires m <= n && k + m <= |fs| && forall j :: k <= j < k + m ==> fs[j] == U(at + j - k, 8)
    ensures Steps(m, At(OfChain(L.Le64s(n, next)), at, k), fs, gaps) == At(OfChain(L.Le64s(n - m, next)), at + m, k + m)
    decreases m
  {
    if m > 0 {
      NamedCounter(n, next, at, k, fs, gaps);
      hide Step;
      NamedRun(m - 1, n - 1, next, at + 1, k + 1, fs, gaps);
    }
  }

  /** Counters without a name. */
  lemma {:induction false} UnnamedRun(m: nat, n: nat, next: L.Chain, at: nat, k: nat, fs: seq<Field>)
    requires m <= n && k <= |fs| && (k < |fs| ==> fs[k] == U(fs[k].at, 8) && fs[k].at >= at + m)
    ensures Steps(m, At(OfChain(L.Le64s(n, next)), at, k), fs, true) == At(OfChain(L.Le64s(n - m, next)), at + m, k)
    decreases m
  {
    if m > 0 {
      UnnamedCounter(n, next, at, k, fs);
      hide Step;
      UnnamedRun(m - 1, n - 1, next, at + 1, k, fs);
    }
  }

  /** The sixteen counters of a direction, ten of them with a name. */
  lemma DirectionRun(next: L.Chain, at: nat, k: nat, fs: seq<Field>)
    requires k + 10 <= |fs| && fs[k..k + 10] == Counters(at)
    requires k + 10 < |fs| ==> fs[k + 10] == U(at + 16, 8)
    ensures Steps(16, At(OfChain(L.Le64s(16, next)), at, k), fs, true) == At(OfChain(next), at + 16, k + 10)
  {
    hide Steps, Walked, L.Le64s;
    forall j | k <= j < k + 10 ensures fs[j] == fs[k..k + 10][j - k] {}
    var w := At(OfChain(L.Le64s(16, next)), at, k);
    NamedRun(4, 16, next, at, k, fs, true);
    UnnamedRun(4, 12, next, at + 4, k + 4, fs);
    NamedRun(6, 8, next, at + 8, k + 4, fs, true);
    UnnamedRun(2, 2, next, at + 14, k + 10, fs);
    NoCounters(next);
    StepsMore(4, 12, w, fs, true);
    StepsMore(4, 8, At(OfChain(L.Le64s(12, next)), at + 4, k + 4), fs, true);
    StepsMore(6, 2, At(OfChain(L.Le64s(8, next)), at + 8, k + 4), fs, true);
  }

  lemma NoCounters(next: L.Chain)
    ensures L.Le64s(0, next) == next
  {
  }

  lemma PortFirst(next: L.Chain, fs: seq<Field>, gaps: bool)
    requires fs != [] && fs[0] == Port(0)
    ensures Steps(1, At(OfChain(L.PortIdentity(next)), 0, 0), fs, gaps) == At(OfChain(next), 2, 1)
  {
    hide L.Grown, L.FixedChain;
    assert Steps(0, At(OfChain(next), 2, 1), fs, gaps) == At(OfChain(next), 2, 1);
  }

  lemma LastStep(n: nat, at: nat, fs: seq<Field>, gaps: bool)
    requires n > 0
    ensures Steps(n, At(OfChain(L.End), at, |fs|), fs, gaps) == Accepted(None)
  {
    StepsDone(n - 1, Accepted(None), fs, gaps);
  }

  lemma PortServiceStatsNpMatches()
    ensures Matches(L.PortServiceStatsNp(L.End), PortServiceStatsNpMembers(NoList), false)
  {
    hide Steps, L.Le64s, L.Sized, L.ShapeOf;
    var fs, c := PortServiceStatsNpMembers(NoList).fields, L.Le64s(10, L.End);
    PortFirst(c, fs, false);
    NamedRun(10, 10, L.End, 2, 1, fs, false);
    NoCounters(L.End);
    LastStep(25, 12, fs, false);
    StepsMore(1, 35, At(OfChain(L.PortIdentity(c)), 0, 0), fs, false);
    StepsMore(10, 25, At(OfChain(c), 2, 1), fs, false);
  }

  lemma PortStatsNpMatches()
    ensures Matches(L.PortStatsNp(L.End), PortStatsNpMembers(NoList), true)
  {
    hide Steps, L.Le64s, L.Sized, L.ShapeOf;
    var fs, c := PortStatsNpMembers(NoList).fields, L.Le64s(16, L.End);
    assert |fs| == 21 && fs[1..11] == Counters(2) && fs[11..21] == Counters(18) && fs[11] == Counters(18)[0];
    PortFirst(L.Le64s(16, c), fs, true);
    DirectionRun(c, 2, 1, fs);
    DirectionRun(L.End, 18, 11, fs);
    LastStep(3, 34, fs, true);
    StepsMore(1, 35, At(OfChain(L.PortIdentity(L.Le64s(16, c))), 0, 0), fs, true);
    StepsMore(16, 19, At(OfChain(L.Le64s(16, c)), 2, 1), fs, true);
    StepsMore(16, 3, At(OfChain(c), 18, 11), fs, true);
  }

  // ---------------------------------------------------------------- all identifiers

  lemma VariableMatch(id: L.MngId)
    requires L.VariableLayout(id).Proc?
    ensures Matches(L.VariableLayout(id), VariableSchema(id), false)
  {
    hide Matches, L.Agrees, L.Sized, L.Varies, Only, U, S, E, Simply, Bits, Port, Text, Clock, Length, Events;
    hide L.ClockDescription, ClockDescriptionMembers, L.UserDescription, L.FaultLog, FaultLogMembers,
      L.PathTraceList, L.GrandmasterClusterTable, GrandmasterClusterTableMembers, L.UnicastMasterTable,
      UnicastMasterTableMembers, L.AcceptableMasterTable, AcceptableMasterTableMembers, L.AlternateTimeOffsetName,
      L.PortPropertiesNp, PortPropertiesNpMembers, L.UnicastMasterTableNp, UnicastMasterTableNpMembers;
    match id {
      case CLOCK_DESCRIPTION => ClockDescriptionMatches();
      case USER_DESCRIPTION => UserDescriptionMatches();
      case FAULT_LOG => FaultLogMatches();
      case PATH_TRACE_LIST => PathTraceListMatches();
      case GRANDMASTER_CLUSTER_TABLE => GrandmasterClusterTableMatches();
      case UNICAST_MASTER_TABLE => UnicastMasterTableMatches();
      case ACCEPTABLE_MASTER_TABLE => AcceptableMasterTableMatches();
      case ALTERNATE_TIME_OFFSET_NAME => AlternateTimeOffsetNameMatches();
      case PORT_PROPERTIES_NP => PortPropertiesNpMatches();
      case UNICAST_MASTER_TABLE_NP => UnicastMasterTableNpMatches();
    }
  }

  lemma GeneralMatch(id: L.MngId)
    requires GroupOf(id) == General && L.GeneralLine(id).size != 0
    ensures Matches(L.GeneralLine(id).chain, GeneralSchema(id), false)
  {
    hide Matches, L.Agrees, L.Sized, L.Varies, Only, U, S, E, Simply, Bits, Port, Text, Clock, Length, Events;
    hide L.OneUnsigned16;
    match id {
      case INITIALIZE => OneUnsigned16Matches();
    }
  }

  lemma DataSetsMatch(id: L.MngId)
    requires GroupOf(id) == DataSets && L.DataSetsLine(id).size != 0
    ensures Matches(L.DataSetsLine(id).chain, DataSetsSchema(id), false)
  {
    hide Matches, L.Agrees, L.Sized, L.Varies, Only, U, S, E, Simply, Bits, Port, Text, Clock, Length, Events;
    hide L.DefaultDataSet, DefaultDataSetMembers, L.CurrentDataSet, L.ParentDataSet, ParentDataSetMembers,
      L.TimePropertiesDataSet, L.PortDataSet, PortDataSetMembers, L.OneFlag, L.OneSigned8, L.OneUnsigned8;
    match id {
      case DEFAULT_DATA_SET => DefaultDataSetMatches();
      case CURRENT_DATA_SET => CurrentDataSetMatches();
      case PARENT_DATA_SET => ParentDataSetMatches();
      case TIME_PROPERTIES_DATA_SET => TimePropertiesDataSetMatches();
      case PORT_DATA_SET => PortDataSetMatches();
      case SLAVE_ONLY => OneFlagMatches();
      case LOG_ANNOUNCE_INTERVAL | LOG_SYNC_INTERVAL => OneSigned8Matches();
      case PRIORITY1 | PRIORITY2 | DOMAIN | ANNOUNCE_RECEIPT_TIMEOUT | VERSION_NUMBER => OneUnsigned8Matches();
    }
  }

  lemma SettingsMatch(id: L.MngId)
    requires GroupOf(id) == Settings && L.SettingsLine(id).size != 0
    ensures Matches(L.SettingsLine(id).chain, SettingsSchema(id), false)
  {
    hide Matches, L.Agrees, L.Sized, L.Varies, Only, U, S, E, Simply, Bits, Port, Text, Clock, Length, Events;
    hide L.Time, L.OneUnsigned8, L.UtcProperties, L.TraceabilityProperties, L.TimescaleProperties, L.OneUnsigned16,
      L.OneFlag;
    match id {
      case TIME => TimeMatches();
      case CLOCK_ACCURACY => OneNameMatches(ACCURACY);
      case UTC_PROPERTIES => UtcPropertiesMatches();
      case TRACEABILITY_PROPERTIES => TraceabilityPropertiesMatches();
      case TIMESCALE_PROPERTIES => TimescalePropertiesMatches();
      case UNICAST_MASTER_MAX_TABLE_SIZE => OneUnsigned16Matches();
      case UNICAST_NEGOTIATION_ENABLE | PATH_TRACE_ENABLE | ACCEPTABLE_MASTER_TABLE_ENABLED => OneFlagMatches();
    }
  }

  lemma OptionsMatch(id: L.MngId)
    requires GroupOf(id) == Options && L.OptionsLine(id).size != 0
    ensures Matches(L.OptionsLine(id).chain, OptionsSchema(id), false)
  {
    hide Matches, L.Agrees, L.Sized, L.Varies, Only, U, S, E, Simply, Bits, Port, Text, Clock, Length, Events;
    hide L.OneUnsigned16, L.AlternateMaster, L.AlternateTimeOffsetEnable, L.AlternateTimeOffsetProperties,
      AlternateTimeOffsetPropertiesMembers, L.TransparentClockPortDataSet, TransparentClockPortMembers, L.OneSigned8,
      L.TransparentClockDefaultDataSet, TransparentClockDefaultMembers, L.OneUnsigned8, L.ExtPortConfigPortDataSet,
      L.OneFlag;
    match id {
      case ACCEPTABLE_MASTER_MAX_TABLE_SIZE => OneUnsigned16Matches();
      case ALTERNATE_MASTER => AlternateMasterMatches();
      case ALTERNATE_TIME_OFFSET_ENABLE => AlternateTimeOffsetEnableMatches();
      case ALTERNATE_TIME_OFFSET_PROPERTIES => AlternateTimeOffsetPropertiesMatches();
      case TRANSPARENT_CLOCK_PORT_DATA_SET => TransparentClockPortMatches();
      case LOG_MIN_PDELAY_REQ_INTERVAL => OneSigned8Matches();
      case TRANSPARENT_CLOCK_DEFAULT_DATA_SET => TransparentClockDefaultMatches();
      case ALTERNATE_TIME_OFFSET_MAX_KEY | PRIMARY_DOMAIN => OneUnsigned8Matches();
      case DELAY_MECHANISM => OneNameMatches(DELAY);
      case EXT_PORT_CONFIG_PORT_DATA_SET => ExtPortConfigPortDataSetMatches();
      case EXTERNAL_PORT_CONFIGURATION_ENABLED | MASTER_ONLY | HOLDOVER_UPGRADE_ENABLE => OneFlagMatches();
    }
  }

  lemma NpPortMatch(id: L.MngId)
    requires L.NpPortLine(id).size != 0
    ensures Matches(L.NpPortLine(id).chain, NpPortSchema(id), false)
  {
    hide Matches, L.Agrees, L.Sized, L.Varies, Only, U, S, E, Simply, Bits, Port, Text, Clock, Length, Events;
    hide L.PortServiceStatsNp, PortServiceStatsNpMembers, L.PortHwclockNp, L.PowerProfileSettingsNp,
      PowerProfileSettingsNpMembers, L.CmldsInfoNp, L.PortCorrectionsNp, L.ExternalGrandmasterPropertiesNp;
    match id {
      case PORT_SERVICE_STATS_NP => PortServiceStatsNpMatches();
      case PORT_HWCLOCK_NP => PortHwclockNpMatches();
      case POWER_PROFILE_SETTINGS_NP => PowerProfileSettingsNpMatches();
      case CMLDS_INFO_NP => CmldsInfoNpMatches();
      case PORT_CORRECTIONS_NP => PortCorrectionsNpMatches();
      case EXTERNAL_GRANDMASTER_PROPERTIES_NP => ExternalGrandmasterPropertiesNpMatches();
    }
  }

  lemma NpMatch(id: L.MngId)
    requires L.NpLine(id).size != 0
    ensures Matches(L.NpLine(id).chain, NpSchema(id), id.PORT_STATS_NP?)
  {
    hide Matches, L.Agrees, L.Sized, L.Varies, Only, U, S, E, Simply, Bits, Port, Text, Clock, Length, Events;
    hide L.NpPortLine, NpPortSchema;
    hide L.TimeStatusNp, TimeStatusNpMembers, L.GrandmasterSettingsNp, GrandmasterSettingsNpMembers, L.PortDataSetNp,
      L.SubscribeEventsNp, L.PortStatsNp, PortStatsNpMembers, L.OneUnsigned8;
    match id {
      case TIME_STATUS_NP => TimeStatusNpMatches();
      case GRANDMASTER_SETTINGS_NP => GrandmasterSettingsNpMatches();
      case PORT_DATA_SET_NP => PortDataSetNpMatches();
      case SUBSCRIBE_EVENTS_NP => SubscribeEventsNpMatches();
      case PORT_STATS_NP => PortStatsNpMatches();
      case SYNCHRONIZATION_UNCERTAIN_NP => OneUnsigned8Matches();
      case _ => NpPortMatch(id);
    }
  }

  lemma Placed(id: L.MngId)
    requires L.HasData(id)
    ensures L.VariableLayout(id).Proc? ==> L.Layout(id) == L.VariableLayout(id) && SchemaOf(id) == VariableSchema(id)
    ensures L.VariableLayout(id).End? ==> L.Layout(id) == L.FixedLine(id).chain && L.FixedLine(id).size != 0
  {
    hide L.VariableLayout, L.FixedLine, L.Agrees, L.VariableLine, GroupOf, VariableSchema;
  }

  lemma Grouped(id: L.MngId)
    ensures match GroupOf(id)
      case General => L.FixedLine(id) == L.GeneralLine(id)
      case DataSets => L.FixedLine(id) == L.DataSetsLine(id)
      case Settings => L.FixedLine(id) == L.SettingsLine(id)
      case Options => L.FixedLine(id) == L.OptionsLine(id)
      case Np => L.FixedLine(id) == L.NpLine(id)
  {
    hide L.GeneralLine, L.DataSetsLine, L.SettingsLine, L.OptionsLine, L.NpLine, L.Agrees;
  }

  /** Every dataField is written and read by a table that has each of its members once, in
      order and with its type, but for reserved octets and the counters without a name. */
  lemma TablesMatch(id: L.MngId)
    requires L.HasData(id)
    ensures Matches(L.Layout(id), SchemaOf(id), id.PORT_STATS_NP?)
    ensures TableFits(SchemaOf(id).fields, Singles(L.Layout(id)), id.PORT_STATS_NP?)
  {
    assert Matches(L.Layout(id), SchemaOf(id), id.PORT_STATS_NP?) by { TableMatches(id); }
    hide L.HasData, L.Layout, SchemaOf, Walked, ListMatches, TableFits, Singles;
    WalkedFits(OfChain(L.Layout(id)), SchemaOf(id).fields, id.PORT_STATS_NP?);
  }

  lemma TableMatches(id: L.MngId)
    requires L.HasData(id)
    ensures Matches(L.Layout(id), SchemaOf(id), id.PORT_STATS_NP?)
  {
    hide Matches, L.VariableLayout, L.FixedLine, L.Layout, L.HasData, L.Agrees, L.GeneralLine, L.DataSetsLine, L.SettingsLine, L.OptionsLine, L.NpLine;
    hide VariableSchema, GeneralSchema, DataSetsSchema, SettingsSchema, OptionsSchema, NpSchema, GroupOf;
    Placed(id);
    Grouped(id);
    StatsGroup(id);
    if L.VariableLayout(id).Proc? {
      VariableMatch(id);
    } else {
      match GroupOf(id) {
        case General => GeneralMatch(id);
        case DataSets => DataSetsMatch(id);
        case Settings => SettingsMatch(id);
        case Options => OptionsMatch(id);
        case Np => NpMatch(id);
      }
    }
  }

  lemma StatsGroup(id: L.MngId)
    ensures id.PORT_STATS_NP? ==> L.VariableLayout(id).End? && GroupOf(id) == Np
  {
  }

  // ---------------------------------------------------------------- TLVs come back

  /** The length that a fault record announces, the only one that is not of a list. */
  function RecordLength(v: seq<Val>): (n: nat)
    ensures n <= UINT64_MAX
  {
    if |v| == |L.FAULT_RECORD.fields| then (2 + C.FieldsLength(L.FAULT_RECORD.fields, v)) % 0x1_0000 else 0
  }

  function WithLengths(c: Context): Context { c.(count := (v: seq<Val>) => RecordLength(v)) }

  lemma LengthsOk(c: Context)
    requires ContextOk(c)
    ensures ContextOk(WithLengths(c)) && forall v :: WithLengths(c).count(v) <= UINT64_MAX
  {
    var d := WithLengths(c);
    assert d.spell == c.spell && d.names == c.names;
    assert forall t :: DistinctNames(d.names(t)) by {
      forall t ensures DistinctNames(d.names(t)) { assert DistinctNames(c.names(t)); }
    }
    assert forall k :: Unescaped(d.spell(k)) by {
      forall k ensures Unescaped(d.spell(k)) { assert Unescaped(c.spell(k)); }
    }
  }

  /** For every identifier with data: all values that fit the dataField and that JSON can
      express come back from the text that is written, normalised as a receiver of the
      message would see them. */
  lemma ManagementBack(spelling: Context, id: L.MngId, ss: seq<C.Slot>, base: nat, comments: bool)
    requires ContextOk(spelling) && L.HasData(id) && C.ChainFits(L.Layout(id), ss)
    requires Expressible(WithLengths(spelling), SchemaOf(id), Singles(L.Layout(id)), DocOf(ss))
    ensures L.WellFormed(L.Layout(id)) && ComesBack(WithLengths(spelling), L.Layout(id), SchemaOf(id), ss, base, comments)
  {
    hide ContextOk, Expressible, Matches, TableFits, SchemaOf, Singles, ComesBack, C.ChainFits, C.ChainNorm, WithLengths;
    hide L.HasData, L.Line, L.Sized;
    TablesMatch(id);
    LengthsOk(spelling);
    LayoutOk(id);
    MatchedBack(WithLengths(spelling), L.Layout(id), SchemaOf(id), id.PORT_STATS_NP?, ss, base, comments);
  }

  lemma LayoutOk(id: L.MngId)
    ensures L.WellFormed(L.Layout(id))
  {
    hide L.Line;
  }
}
