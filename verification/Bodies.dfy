/**
 The TLVs that are not read as a plain list of members, octet by octet, and the header and
 the management part of a message.
 */
module WireBodies {
  import opened Octets
  import opened TlvLayout
  import opened TlvCodec
  import opened TlvSizes
  import opened Framing
  import opened Signalling
  import opened Receiving
  import opened WireFormats

  /** A number of two octets. */
  function Pair(b: seq<octet>, at: nat): nat
    requires at + 2 <= |b|
  {
    var high: nat, low: nat := b[at], b[at + 1];
    256 * high + low
  }

  lemma ReadDigits(b: seq<octet>, at: nat)
    requires at + 2 <= |b|
    ensures Read16(b, at) == Pair(b, at)
  {
    var s := b[at..at + 2];
    assert s[..1] == [b[at]] && s[1] == b[at + 1] && [b[at]][..0] == [];
    assert FromBigEndian([b[at]]) == b[at];
  }

  lemma DigitsOfTwo(v: nat)
    requires v < 0x1_0000
    ensures Digits(v, 2) == [v / 256, v % 256]
  {
    DigitsAre(v, 2);
    BigEndianOctets(v);
  }

  /** A number of two octets in front of others. */
  lemma FirstTwo(v: nat, rest: seq<octet>)
    requires v < 0x1_0000
    ensures var b := Digits(v, 2) + rest; Read16(b, 0) == v && b[2..] == rest
  {
    DigitsOfTwo(v);
    ReadDigits(Digits(v, 2) + rest, 0);
  }

  lemma IdFound(id: MngId, linuxptp: bool)
    requires MayUse(id, linuxptp)
    ensures IdValue(id) < 0x1_0000 && FindTlvId(IdValue(id), linuxptp) == Some(id)
  {
    hide Line, FindId;
    IdValueBound(id);
    FindIdValue(id);
  }

  // ---------------------------------------------------------------- error status

  function ErrorBody(errorId: nat, id: MngId, reserved: seq<octet>, text: seq<octet>, tail: seq<octet>): seq<octet> {
    Digits(errorId, 2) + (Digits(IdValue(id), 2) + (reserved + ([|text| % 256] + text + tail)))
  }

  lemma ErrorParts(errorId: nat, id: MngId, reserved: seq<octet>, text: seq<octet>, tail: seq<octet>)
    requires errorId < 0x1_0000 && |reserved| == 4 && |text| < 256
    ensures var b := ErrorBody(errorId, id, reserved, text, tail);
      && |b| == 9 + |text| + |tail| && Read16(b, 0) == errorId && Read16(b, 2) == IdValue(id)
      && b[8..] == [|text|] + text + tail && Parse(Text, b[8..]) == Got(Bytes(text), 1 + |text|)
  {
    hide IdValue, Read16, Digits;
    IdValueBound(id);
    var more := reserved + ([|text| % 256] + text + tail);
    var second := Digits(IdValue(id), 2) + more;
    var b := ErrorBody(errorId, id, reserved, text, tail);
    FirstTwo(errorId, second);
    FirstTwo(IdValue(id), more);
    ReadDigits(b, 2);
    ReadDigits(second, 0);
    assert b[2] == second[0] && b[3] == second[1];
    assert b[8..] == second[6..] == more[4..];
    FieldRoundTrip(Text, Bytes(text), tail);
  }

  /** A management error status: the error comes in front of the identifier. */
  lemma ErrorStored(errorId: nat, id: MngId, reserved: seq<octet>, text: seq<octet>, tail: seq<octet>, linuxptp: bool)
    requires errorId < 0x1_0000 && |reserved| == 4 && |text| < 256 && MayUse(id, linuxptp)
    ensures Handle(2, ErrorBody(errorId, id, reserved, text, tail), linuxptp) == Handled.Kept(SigError(id, errorId, text))
  {
    hide ErrorBody, Read16, FindTlvId, Parse, Line;
    ErrorParts(errorId, id, reserved, text, tail);
    IdFound(id, linuxptp);
  }

  /** The same as the answer to a request. */
  lemma ErrorAnswered(e: Env, r: Reply, action: nat, errorId: nat, id: MngId, reserved: seq<octet>, text: seq<octet>,
                      tail: seq<octet>, err: Error)
    requires errorId < 0x1_0000 && |reserved| == 4 && |text| < 256 && MayUse(id, e.prms.linuxptp)
    requires action != 3 && MayReply(id, action) && (text == [] && tail == [] ==> r.display == [])
    ensures ReceiveError(e, r, action, ErrorBody(errorId, id, reserved, text, tail), err)
         == Received(if err != OK then err else MSG, r.(action := action, id := MngTlv(id), errorId := errorId, display := text))
  {
    hide ErrorBody, Read16, FindTlvId, Parse, Line, MayReply;
    ErrorParts(errorId, id, reserved, text, tail);
    IdFound(id, e.prms.linuxptp);
  }

  // ---------------------------------------------------------------- management

  /** A management TLV: the identifier, and the dataField with its pad octet. */
  lemma ManagementStored(id: MngId, ss: seq<Slot>, linuxptp: bool)
    requires MayUse(id, linuxptp) && HasData(id) && ChainFits(Layout(id), ss)
    ensures var data := Padded(ChainEnc(Layout(id), ss));
      Handle(1, Digits(IdValue(id), 2) + data, linuxptp)
      == if data == [] then Ignored else Handled.Kept(SigManagement(id, Some(Tlv(id, ChainNorm(Layout(id), ss)))))
  {
    hide Line, ChainEnc, ChainParse, ChainNorm, ChainFits, Read16, FindTlvId, IdValue, Digits, Padded;
    var data := Padded(ChainEnc(Layout(id), ss));
    IdFound(id, linuxptp);
    FirstTwo(IdValue(id), data);
    PaddedReadBack(Layout(id), ss);
  }

  /** Neither an unknown identifier nor one without data is stored, nor one of linuxptp without it. */
  lemma ManagementSkipped(value: nat, data: seq<octet>, linuxptp: bool)
    requires value < 0x1_0000 && (data == [] || forall id :: IdValue(id) == value ==> !MayUse(id, linuxptp))
    ensures Handle(1, Digits(value, 2) + data, linuxptp) == Ignored
  {
    hide Line, ReadTlv, Read16, IdValue, Digits, FindId;
    FirstTwo(value, data);
    if FindId(value).Some? { FoundIsValue(value); }
  }

  lemma FoundIsValue(value: nat)
    requires FindId(value).Some?
    ensures IdValue(FindId(value).value) == value
  {
    hide IdValue;
    if value < 0x2008 { FoundLow(value); } else if value < 0x2018 { FoundMid(value); }
    else if value < 0x3000 { FoundTable(value); } else if value < 0xc000 { FoundOption(value); } else { FoundNp(value); }
  }

  lemma FoundLow(value: nat)
    requires FindId(value).Some? && value < 0x2008
    ensures IdValue(FindId(value).value) == value
  {
    hide FindMembers, FindProperties, FindMasters, FindOptions, FindNp, FindNpMore;
  }

  lemma FoundMid(value: nat)
    requires FindId(value).Some? && 0x2008 <= value < 0x2018
    ensures IdValue(FindId(value).value) == value
  {
    hide FindGeneral, FindDataSets, FindMasters, FindOptions, FindNp, FindNpMore;
  }

  lemma FoundTable(value: nat)
    requires FindId(value).Some? && 0x2018 <= value < 0x3000
    ensures IdValue(FindId(value).value) == value
  {
    hide FindGeneral, FindDataSets, FindMembers, FindProperties, FindOptions, FindNp, FindNpMore;
  }

  lemma FoundOption(value: nat)
    requires FindId(value).Some? && 0x3000 <= value < 0xc000
    ensures IdValue(FindId(value).value) == value
  {
    hide FindGeneral, FindDataSets, FindMembers, FindProperties, FindMasters, FindNp, FindNpMore;
  }

  lemma FoundNp(value: nat)
    requires FindId(value).Some? && value >= 0xc000
    ensures IdValue(FindId(value).value) == value
  {
    hide FindGeneral, FindDataSets, FindMembers, FindProperties, FindMasters, FindOptions;
  }

  // ---------------------------------------------------------------- organizations

  /** Organization extensions: two identifiers of three octets, and the rest. */
  lemma OrganizationStored(tlvType: nat, organization: seq<octet>, sub: seq<octet>, data: seq<octet>, linuxptp: bool)
    requires tlvType in {3, 0x4000, 0x8000} && |organization| == |sub| == 3
    ensures Handle(tlvType, organization + sub + data, linuxptp)
         == Handled.Kept(SigData([Scalar(Bytes(organization)), Scalar(Bytes(sub)), Scalar(Bytes(data))]))
  {
    hide ChainReads, ChainParse;
    var ms, vs := [Raw(3), Raw(3)], [Bytes(organization), Bytes(sub)];
    EndReads();
    ReadsP2(Oct(3), Oct(3), Raw(3), Raw(3), End, [], []);
    assert ms + [] == ms;
    SyncPart(Organization(), ms, vs, data);
    assert WrittenAll(ms[1..], vs[1..]) == sub + WrittenAll([], []);
    assert WrittenAll(ms, vs) == organization + sub;
    var body := organization + sub + data;
    assert body[6..] == data;
    assert Scalars(vs) + [Scalar(Bytes(data))] == [Scalar(Bytes(organization)), Scalar(Bytes(sub)), Scalar(Bytes(data))];
    assert ReadOrganization(body) == Handled.Kept(SigData(Scalars(vs) + [Scalar(Bytes(body[6..]))]));
  }

  const SMPTE_MEMBERS := [Raw(3), N(4), N(4), N(1)] + [N(1), Z(4), Z(4), N(6)] + [N(6), N(6), Z(4), N(1)] + [N(1)]

  lemma SmpteReads()
    ensures ChainReads(SmpteRest(), Format(SMPTE_MEMBERS, [])) && WellFormed(SmpteRest()) && FixedChain(SmpteRest())
  {
    EndReads();
    hide ChainReads, P4, P2;
    assert [N(1)] + [] == [N(1)];
    ReadsP(U(1), N(1), End, [], []);
    var c := P(U(1), End);
    ReadsP4(U48, U48, S(4), U(1), N(6), N(6), Z(4), N(1), c, [N(1)], []);
    var d := P4(U48, U48, S(4), U(1), c);
    ReadsP4(U(1), S(4), S(4), U48, N(1), Z(4), Z(4), N(6), d, [N(6), N(6), Z(4), N(1)] + [N(1)], []);
    var e := P4(U(1), S(4), S(4), U48, d);
    ReadsP4(Oct(3), U(4), U(4), U(1), Raw(3), N(4), N(4), N(1), e, [N(1), Z(4), Z(4), N(6)] + ([N(6), N(6), Z(4), N(1)] + [N(1)]), []);
    assert [Raw(3), N(4), N(4), N(1)] + ([N(1), Z(4), Z(4), N(6)] + ([N(6), N(6), Z(4), N(1)] + [N(1)])) == SMPTE_MEMBERS;
    SmpteFixed();
  }

  lemma SmpteFixed()
    ensures WellFormed(SmpteRest()) && FixedChain(SmpteRest())
  {
  }

  /** The SMPTE extension: a command with the identifier 68-97-e8, if it is to be received. */
  lemma SmpteStored(e: Env, r: Reply, vs: seq<Val>, tail: seq<octet>, err: Error)
    requires HoldAll(SMPTE_MEMBERS, vs) && e.prms.rcvSMPTEOrg
    ensures ReceiveSmpte(e, r, 3, [0x68, 0x97, 0xe8] + (WrittenAll(SMPTE_MEMBERS, vs) + tail), err)
         == Received(if err != OK then err else Error.SMPTE,
                     r.(action := 3, id := SmpteTlv, data := SmpteData([Scalar(Bytes([0x68, 0x97, 0xe8]))] + Scalars(vs))))
  {
    hide ChainReads, ChainParse, SmpteRest, WrittenAll, HoldAll;
    SmpteReads();
    var rest := WrittenAll(SMPTE_MEMBERS, vs) + tail;
    var body: seq<octet> := [0x68, 0x97, 0xe8] + rest;
    assert body[..3] == SMPTE_OUI && body[3..] == rest;
    SyncPart(SmpteRest(), SMPTE_MEMBERS, vs, tail);
  }

  // ---------------------------------------------------------------- the message

  /** The header as a receiver stores it, octet by octet. */
  function HeaderOctets(r: Reply, b: seq<octet>): Reply
    requires |b| >= 44
  {
    var major: nat, flags: nat := b[0] / 16, b[6] / 32;
    r.(msgType := b[0] % 16, version := b[1] % 16, minorVersion := b[1] / 16, sdoId := major * 256 + b[5],
       domain := b[4], unicast := b[6] / 4 % 2 == 1, profile := 32 * (flags % 4),
       sequence := Pair(b, 30), peer := PortId(b[20..28], Pair(b, 28)),
       target := PortId(b[34..42], Pair(b, 42)))
  }

  lemma ProfileBits(n: octet)
    ensures var flags: nat := n / 32; BitAnd(n, 0x60) == 32 * (flags % 4)
  {
    hide BitAnd;
    var a: nat := n / 2;
    var b := a / 2;
    var c := b / 2;
    var d := c / 2;
    EvenMask(n, 0x30);
    EvenMask(a, 0x18);
    EvenMask(b, 0xc);
    EvenMask(c, 6);
    EvenMask(d, 3);
    LowTwo(d / 2);
    assert d / 2 == n / 32;
  }

  lemma EvenMask(n: nat, m: nat)
    ensures BitAnd(n, 2 * m) == 2 * BitAnd(n / 2, m)
  {
    var k := 2 * m;
    assert k / 2 == m && k % 2 == 0;
    if n == 0 || m == 0 {
      assert BitAnd(n / 2, m) == 0;
    } else {
      assert (n % 2) * (k % 2) == 0;
      assert BitAnd(n, k) == 2 * BitAnd(n / 2, k / 2) + (n % 2) * (k % 2);
    }
  }

  lemma LowTwo(m: nat)
    ensures BitAnd(m, 3) == m % 4
  {
    assert BitAnd(m, 3) == 2 * BitAnd(m / 2, 1) + m % 2;
    assert BitAnd(m / 2, 1) == m / 2 % 2;
  }

  lemma HeaderIs(r: Reply, b: seq<octet>)
    requires |b| >= 44
    ensures ReadHeader(r.(msgType := b[0] % 16, version := b[1] % 16, minorVersion := b[1] / 16), b) == HeaderOctets(r, b)
  {
    hide Read16, BitAnd;
    ReadDigits(b, 28);
    ReadDigits(b, 30);
    ReadDigits(b, 42);
    ProfileBits(b[6]);
  }

  /** The octets that make a message of version 2 that fills its length. */
  predicate Whole(b: seq<octet>, kind: nat, least: nat) {
    && |b| >= 44 && b[0] % 16 == kind && least <= Pair(b, 2) <= |b| && b[1] % 16 == 2 && b[33] == 0x7f
  }

  /** A management message without a check: actions 2, 3 and 4 are taken, the TLV by its type. */
  lemma MessageTaken(e: Env, r: Reply, b: seq<octet>)
    requires Whole(b, 0xd, 52) && !e.auth.on
    ensures var size, action, len, tlvType := Pair(b, 2), b[46] % 16, Pair(b, 50), Pair(b, 48);
      var h := HeaderOctets(r, b).(lastSig := false);
      var h1 := h.(mngType := tlvType);
      Receive(e, r, b) ==
        if action != 2 && action != 3 && action != 4 then Received(Error.ACTION, h)
        else if 52 + len > size || len % 2 == 1 then Received(TOO_SMALL, h1)
        else if tlvType == 1 then ReceiveManagement(e, h1, action, b[52..52 + len], OK)
        else if tlvType == 2 then ReceiveError(e, h1, action, b[52..52 + len], OK)
        else if tlvType == 3 then ReceiveSmpte(e, h1, action, b[52..52 + len], OK)
        else Received(INVALID_TLV, h1)
  {
    hide Read16, ReceiveManagement, ReceiveError, ReceiveSmpte, ReadHeader, ReceiveSig, HeaderOctets;
    HeaderIs(r, b);
    ReadDigits(b, 2);
    ReadDigits(b, 48);
    ReadDigits(b, 50);
  }

  /** A signalling message is walked through if that is asked for, and refused otherwise. */
  lemma SignallingTaken(e: Env, r: Reply, b: seq<octet>)
    requires Whole(b, 0xc, 0)
    ensures var c := b[..Pair(b, 2)];
      Receive(e, r, b) ==
        if !e.prms.rcvSignaling then Received(HEADER, r.(msgType := 0xc))
        else var w := SigRun(e, c, SigStart(c)); Received(w.err, HeaderOctets(r, b).(sigs := w.found, lastSig := true))
  {
    hide Read16, ReceiveMng, ReadHeader, SigRun, HeaderOctets;
    HeaderIs(r, b);
    ReadDigits(b, 2);
  }

  /** Nothing else is accepted. */
  lemma OthersRefused(e: Env, r: Reply, b: seq<octet>)
    requires !Whole(b, 0xd, 52) && !Whole(b, 0xc, 0)
    ensures var out := Receive(e, r, b);
      (out.err == TOO_SMALL || out.err == HEADER) && out.reply.data == r.data && out.reply.sigs == r.sigs
  {
    hide Read16, ReceiveMng, ReceiveSig, ReadHeader;
    if |b| >= 44 { ReadDigits(b, 2); }
  }
}
