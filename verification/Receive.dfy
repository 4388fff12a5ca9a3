/**
 Receiving a message: the header, a management reply or error status, and the theorem
 that a reply is read as it was sent.
 */
module Receiving {
  import opened Octets
  import opened TlvLayout
  import opened TlvCodec
  import opened TlvSizes
  import opened SecurityAssociation
  import opened Framing
  import opened Signalling

  datatype ReplyId = NoId | MngTlv(id: MngId) | SmpteTlv

  datatype ReplyData = NoData | MngData(tlv: Tlv) | SmpteData(slots: seq<Slot>)

  /** The members of a message object that receiving sets. */
  datatype Reply = Reply(
    msgType: nat, version: nat, minorVersion: nat, sdoId: nat, domain: nat, unicast: bool, profile: nat,
    sequence: nat, peer: PortId, target: PortId, mngType: nat, action: nat, id: ReplyId, data: ReplyData,
    errorId: nat, display: seq<octet>, sigs: seq<(nat, SigTlv)>, lastSig: bool)

  datatype Received = Received(err: Error, reply: Reply)

  function ReadPortId(b: seq<octet>, at: nat): (p: PortId)
    requires at + 10 <= |b|
    ensures PortIdOk(p)
  {
    PortId(b[at..at + 8], Read16(b, at + 8))
  }

  /** The members of the header, once its type and version are known. */
  function ReadHeader(r: Reply, b: seq<octet>): Reply
    requires |b| >= SIG_BASE_SIZE
  {
    var minor: nat, major: nat := b[5], b[0] / 16;
    r.(sdoId := minor + major * 256, domain := b[4], unicast := b[6] / 4 % 2 == 1,
       profile := BitAnd(b[6], 0x60), sequence := Read16(b, 30),
       peer := ReadPortId(b, 20), target := ReadPortId(b, 34))
  }

  function OrElse(err: Error, otherwise: Error): Error { if err != OK then err else otherwise }

  function ReceiveError(e: Env, r: Reply, action: nat, body: seq<octet>, errAuth: Error): Received {
    if action == ActionCode(COMMAND) then Received(ACTION, r)
    else
      var r1 := r.(action := action);
      if |body| < 8 then Received(TOO_SMALL, r1)
      else
        match FindTlvId(Read16(body, 2), e.prms.linuxptp)
        case None => Received(INVALID_ID, r1)
        case Some(id) =>
          var r2 := r1.(id := MngTlv(id));
          if !MayReply(id, action) then Received(ACTION, r2)
          else
            var r3 := r2.(errorId := Read16(body, 0));
            var text := Parse(Text, body[8..]);
            if |body| - 8 <= 1 then Received(OrElse(errAuth, MSG), r3)
            else if text.Fail? then Received(TOO_SMALL, r3)
            else Received(OrElse(errAuth, MSG), r3.(display := if text.val.Bytes? then text.val.b else []))
  }

  /** A reply without data leaves the data of an earlier one in place. */
  function ReceiveManagement(e: Env, r: Reply, action: nat, body: seq<octet>, errAuth: Error): Received {
    if action == ActionCode(COMMAND) then Received(ACTION, r)
    else
      var r1 := r.(action := action);
      if |body| < 2 then Received(TOO_SMALL, r1)
      else
        match FindTlvId(Read16(body, 0), e.prms.linuxptp)
        case None => Received(INVALID_ID, r1)
        case Some(id) =>
          var r2 := r1.(id := MngTlv(id));
          if !MayReply(id, action) then Received(ACTION, r2)
          else if |body| == 2 then Received(errAuth, r2)
          else
            match ReadTlv(id, body[2..])
            case Fail(err) => Received(err, r2)
            case Got(tlv, _) => Received(errAuth, r2.(data := if tlv.Some? then MngData(tlv.value) else NoData))
  }

  const SMPTE_OUI: seq<octet> := [0x68, 0x97, 0xe8]

  function SmpteRest(): Chain { P4(Oct(3), U(4), U(4), U(1), P4(U(1), S(4), S(4), U48, P4(U48, U48, S(4), U(1), P(U(1), End)))) }

  function ReceiveSmpte(e: Env, r: Reply, action: nat, body: seq<octet>, errAuth: Error): Received {
    if !e.prms.rcvSMPTEOrg then Received(INVALID_TLV, r)
    else if action != ActionCode(COMMAND) then Received(ACTION, r)
    else
      var r1 := r.(action := action);
      if |body| < 3 then Received(TOO_SMALL, r1)
      else if body[..3] != SMPTE_OUI then Received(INVALID_ID, r1)
      else
        match ChainParse(SmpteRest(), body[3..])
        case Fail(err) => Received(err, r1)
        case Got(slots, _) =>
          var r2 := r1.(data := SmpteData([Scalar(Bytes(SMPTE_OUI))] + slots), id := SmpteTlv);
          Received(OrElse(errAuth, SMPTE), r2)
  }

  /** What is to be done with a management message: an error, or its TLV. */
  datatype MngStep = Refuse(err: Error, known: bool) | Deliver(action: nat, body: seq<octet>, errAuth: Error)

  /** The management part of `parse` up to the TLV, on a message of `size` octets. */
  function MngTlvOf(e: Env, b: seq<octet>, size: nat): MngStep
    requires MNG_MIN_SIZE <= size <= |b|
  {
    var action := b[46] % 16;
    if action != ActionCode(RESPONSE) && action != ActionCode(ACKNOWLEDGE) && action != ActionCode(COMMAND) then
      Refuse(ACTION, false)
    else
      var len := Read16(b, 50);
      var end := MNG_MIN_SIZE + len;
      if end > size || len % 2 == 1 then Refuse(TOO_SMALL, true)
      else
        var errAuth := if e.auth.on && AuthManagement(e.prms) then ParseAuth(e.auth, e.mac, b, end, size - end, true) else OK;
        if errAuth != OK && !AuthIgnore(e.prms) then Refuse(errAuth, true)
        else Deliver(action, b[MNG_MIN_SIZE..end], errAuth)
  }

  function ReceiveMng(e: Env, r: Reply, b: seq<octet>, size: nat): Received
    requires MNG_MIN_SIZE <= size <= |b|
  {
    var tlvType := Read16(b, 48);
    match MngTlvOf(e, b, size)
    case Refuse(err, known) => Received(err, if known then r.(mngType := tlvType) else r)
    case Deliver(action, body, errAuth) =>
      var r1 := r.(mngType := tlvType);
      if tlvType == MANAGEMENT_ERROR_STATUS then ReceiveError(e, r1, action, body, errAuth)
      else if tlvType == MANAGEMENT then ReceiveManagement(e, r1, action, body, errAuth)
      else if tlvType == ORGANIZATION_EXTENSION then ReceiveSmpte(e, r1, action, body, errAuth)
      else Received(INVALID_TLV, r1)
  }

  function ReceiveSig(e: Env, r: Reply, b: seq<octet>): Received {
    var out := SigRun(e, b, SigStart(b));
    Received(out.err, r.(sigs := out.found, lastSig := true))
  }

  /** `parse`. */
  function Receive(e: Env, r: Reply, b: seq<octet>): Received {
    if |b| < SIG_BASE_SIZE then Received(TOO_SMALL, r)
    else
      var size, kind := Read16(b, 2), b[0] % 16;
      if size > |b| then Received(HEADER, r)
      else
        var r1 := r.(msgType := kind);
        if kind != SIGNALING_TYPE && kind != MANAGEMENT_TYPE then Received(HEADER, r1)
        else if kind == SIGNALING_TYPE && !e.prms.rcvSignaling then Received(HEADER, r1)
        else if kind == MANAGEMENT_TYPE && size < MNG_MIN_SIZE then Received(TOO_SMALL, r1)
        else
          var r2 := r1.(version := b[1] % 16, minorVersion := b[1] / 16);
          if r2.version != 2 || b[33] != 0x7f then Received(HEADER, r2)
          else
            var r3 := ReadHeader(r2, b);
            if kind == SIGNALING_TYPE then ReceiveSig(e, r3, b[..size])
            else ReceiveMng(e, r3.(lastSig := false), b, size)
  }

  // ---------------------------------------------------------------- a reply comes back

  lemma ReadParts(x: seq<octet>, n: nat, y: seq<octet>)
    requires n < 0x1_0000
    ensures Read16(x + BigEndian(n, 2) + y, |x|) == n
  {
    Pow256Values();
    var b := x + BigEndian(n, 2) + y;
    assert b[|x|..|x| + 2] == BigEndian(n, 2);
    BigEndianRoundTrip(n, 2);
  }

  lemma PortIdParts(x: seq<octet>, p: PortId, y: seq<octet>)
    requires PortIdOk(p)
    ensures ReadPortId(x + PortIdOctets(p) + y, |x|) == p
  {
    var b := x + PortIdOctets(p) + y;
    assert b[|x|..|x| + 8] == p.clock;
    assert b == (x + p.clock) + BigEndian(p.port, 2) + y;
    ReadParts(x + p.clock, p.port, y);
  }

  /** The members of the header as a receiver reads them. */
  lemma HeaderFields(p: Params, action: octet, sequence: nat, len: seq<octet>, tail: seq<octet>)
    requires ParamsOk(p) && sequence < 0x1_0000 && |len| == 2
    ensures var b := HeadStart(p) + len + (HeadEnd(p, action, sequence) + tail);
      && b[0] == MANAGEMENT_TYPE + 16 * p.transportSpecific && b[1] == p.minorVersion % 16 * 16 + 2
      && b[4] == p.domainNumber && b[5] == 0 && b[6] == (if p.isUnicast then 4 else 0)
      && b[33] == 0x7f && b[46] == action
      && Read16(b, 30) == sequence && ReadPortId(b, 20) == p.selfId && ReadPortId(b, 34) == p.target
  {
    hide Read16, ReadPortId, PortIdOctets;
    var start := HeadStart(p) + len;
    var first: seq<octet> := [p.domainNumber, 0, if p.isUnicast then 4 else 0, 0] + Zeros(12);
    var seqs: seq<octet> := BigEndian(sequence, 2) + [4, 0x7f];
    var last: seq<octet> := [p.boundaryHops, p.boundaryHops, action, 0];
    var own, target := PortIdOctets(p.selfId), PortIdOctets(p.target);
    var b := start + (HeadEnd(p, action, sequence) + tail);
    assert HeadEnd(p, action, sequence) == first + own + seqs + target + last;
    var x := start + first;
    assert b == x + own + (seqs + target + last + tail);
    PortIdParts(x, p.selfId, seqs + target + last + tail);
    assert b == (x + own) + BigEndian(sequence, 2) + ([4, 0x7f] + target + last + tail);
    ReadParts(x + own, sequence, [4, 0x7f] + target + last + tail);
    assert b == (x + own + seqs) + target + (last + tail);
    PortIdParts(x + own + seqs, p.target, last + tail);
  }

  lemma FrameFields(p: Params, action: octet, sequence: nat, id: MngId, data: seq<octet>, s: Signer, rest: seq<octet>)
    requires ParamsOk(p) && sequence < 0x1_0000 && FrameSize(data, s) < 0x1_0000
    ensures var b := Covered(p, action, sequence, id, data, s) + rest;
      && |b| >= MNG_BASE_SIZE + |data|
      && Read16(b, 2) == FrameSize(data, s) && Read16(b, 48) == MANAGEMENT && Read16(b, 50) == 2 + |data|
      && b[52..54 + |data|] == BigEndian(IdValue(id), 2) + data
    ensures exists len, tail ::
      |len| == 2 && Covered(p, action, sequence, id, data, s) + rest
                    == HeadStart(p) + len + (HeadEnd(p, action, sequence) + tail)
  {
    hide HeadStart, HeadEnd, IdValue, Read16, BigEndian, AuthHead;
    var auth: seq<octet> := if s.Unsigned? then [] else AuthHead(s.spp, s.key, s.macSize);
    var b := Covered(p, action, sequence, id, data, s) + rest;
    FrameShape(HeadStart(p), BigEndian(FrameSize(data, s), 2), HeadEnd(p, action, sequence), BigEndian(MANAGEMENT, 2),
               BigEndian(2 + |data|, 2), BigEndian(IdValue(id), 2), data, auth, rest);
    ReadSlice(b, 2, FrameSize(data, s));
    ReadSlice(b, 48, MANAGEMENT);
    ReadSlice(b, 50, 2 + |data|);
  }

  lemma ReadSlice(b: seq<octet>, at: nat, n: nat)
    requires at + 2 <= |b| && n < 0x1_0000 && b[at..at + 2] == BigEndian(n, 2)
    ensures Read16(b, at) == n
  {
    Pow256Values();
    BigEndianRoundTrip(n, 2);
  }

  lemma FrameShape(start: seq<octet>, total: seq<octet>, end: seq<octet>, kind: seq<octet>, len: seq<octet>,
                   id: seq<octet>, data: seq<octet>, auth: seq<octet>, rest: seq<octet>)
    requires |start| == |total| == |kind| == |len| == |id| == 2 && |end| == 44
    ensures var b := (start + total + (end + kind) + len + id) + data + auth + rest;
      && b == start + total + (end + (kind + len + id + data + auth + rest))
      && b[2..4] == total && b[48..50] == kind && b[50..52] == len && b[52..54 + |data|] == id + data
  {
  }

  lemma {:induction false} PadIsTail(c: Chain, pad: seq<octet>)
    requires WellFormed(c) && |pad| <= 1
    ensures Tail(c, pad)
    decreases c
  {
    match c
    case End =>
    case Proc(item, next) => if !item.Rest? { PadIsTail(next, pad); }
  }

  /** A dataField and its pad octet give the normalised values back. */
  lemma PaddedReadBack(c: Chain, ss: seq<Slot>)
    requires WellFormed(c) && ChainFits(c, ss)
    ensures var r := ChainParse(c, Padded(ChainEnc(c, ss))); r.Got? && r.val == ChainNorm(c, ss)
  {
    hide ChainParse, ChainEnc, ChainNorm, ChainFits;
    var bs := ChainEnc(c, ss);
    var pad: seq<octet> := if |bs| % 2 == 1 then [0] else [];
    assert Padded(bs) == bs + pad;
    PadIsTail(c, pad);
    ChainRoundTrip(c, ss, pad);
  }

  lemma IdReadBack(id: MngId, data: seq<octet>, linuxptp: bool)
    requires MayUse(id, linuxptp)
    ensures var body := BigEndian(IdValue(id), 2) + data;
      FindTlvId(Read16(body, 0), linuxptp) == Some(id) && body[2..] == data
  {
    hide Line, FindId, BigEndian;
    IdValueBound(id);
    FindIdValue(id);
    var none: seq<octet> := [];
    ReadParts(none, IdValue(id), data);
    assert none + BigEndian(IdValue(id), 2) + data == BigEndian(IdValue(id), 2) + data;
  }

  lemma IdValueBound(id: MngId)
    ensures IdValue(id) < 0x1_0000
  {
  }

  /** The receiver does not check, or it checks with the key the sender used. */
  ghost predicate Accepted(e: Env, covered: seq<octet>, s: Signer, icv: seq<octet>) {
    || !e.auth.on || !AuthManagement(e.prms)
    || (&& AuthOk(e.auth) && Trusted(e.mac) && DigestSized(e.mac)
        && s == Signer(e.auth.spp, e.auth.key, MacSize(e.auth.sa, e.auth.spp, e.auth.key))
        && e.mac.digest(e.auth.hmac, covered, s.macSize) == Some(icv))
  }

  /** The members of the header that a receiver is left with. */
  function HeaderOf(r: Reply, p: Params, sequence: nat): Reply {
    r.(msgType := MANAGEMENT_TYPE, version := 2, minorVersion := p.minorVersion % 16,
       sdoId := 256 * p.transportSpecific, domain := p.domainNumber, unicast := p.isUnicast, profile := 0,
       sequence := sequence, peer := p.selfId, target := p.target, lastSig := false)
  }

  /** What a reply with the octets `data` leaves the receiver with. */
  function ReplyOf(r: Reply, p: Params, action: Action, sequence: nat, id: MngId, data: ReplyData): Reply {
    HeaderOf(r, p, sequence).(mngType := MANAGEMENT, action := ActionCode(action), id := MngTlv(id), data := data)
  }

  lemma HeaderReceived(r: Reply, p: Params, action: octet, sequence: nat, len: seq<octet>, tail: seq<octet>)
    requires ParamsOk(p) && sequence < 0x1_0000 && |len| == 2
    ensures var b := HeadStart(p) + len + (HeadEnd(p, action, sequence) + tail);
      && |b| >= 48 && b[0] % 16 == MANAGEMENT_TYPE && b[1] % 16 == 2 && b[33] == 0x7f && b[46] == action
      && ReadHeader(r.(msgType := MANAGEMENT_TYPE, version := 2, minorVersion := b[1] / 16), b).(lastSig := false)
         == HeaderOf(r, p, sequence)
  {
    hide HeadStart, HeadEnd, Read16, ReadPortId;
    HeaderFields(p, action, sequence, len, tail);
    assert BitAnd(0, 0x60) == 0;
    assert BitAnd(2, 0x30) == 0 by { assert BitAnd(1, 0x18) == 0; }
    assert BitAnd(4, 0x60) == 0;
  }

  /** The message of a reply: a dataField, or none. */
  datatype Sent = Sent(prms: Params, action: Action, sequence: nat, id: MngId, data: seq<octet>, signer: Signer)

  ghost predicate SentOk(m: Sent) {
    && ParamsOk(m.prms) && m.sequence < 0x1_0000 && |m.data| % 2 == 0 && FrameSize(m.data, m.signer) < 0x1_0000
    && (m.signer.Signer? ==> m.signer.macSize % 2 == 0 && m.signer.macSize <= 32 && m.signer.key < 0x1_0000_0000)
  }

  function CoveredOf(m: Sent): seq<octet>
    requires ParamsOk(m.prms)
  {
    Covered(m.prms, ActionCode(m.action), m.sequence, m.id, m.data, m.signer)
  }

  /** The AUTHENTICATION TLV of the message is found behind the dataField and accepted. */
  lemma SignatureFound(e: Env, m: Sent, icv: seq<octet>, tail: seq<octet>)
    requires SentOk(m) && Accepted(e, CoveredOf(m), m.signer, icv) && e.auth.on && AuthManagement(e.prms)
    ensures var b, end := CoveredOf(m) + (icv + tail), MNG_BASE_SIZE + |m.data|;
      && FrameSize(m.data, m.signer) == end + AUTH_TLV_SIZE + |icv| <= |b|
      && ParseAuth(e.auth, e.mac, b, end, FrameSize(m.data, m.signer) - end, true) == OK
  {
    hide Front, AuthHead, ParseAuth, AuthOk, SaOk, Have, MacSize;
    MacSizeBounds(e.auth);
    var s := m.signer;
    var front := Front(m.prms, ActionCode(m.action), m.sequence, m.id, FrameSize(m.data, s), |m.data|) + m.data;
    var head := AuthHead(s.spp, s.key, s.macSize);
    assert CoveredOf(m) == front + head;
    SignedAccepted(e.auth, e.mac, front, icv, []);
    assert front + head + icv + [] == front + head + icv;
    var b := CoveredOf(m) + (icv + tail);
    assert b == front + head + icv + tail;
    ParseAuthPrefix(e.auth, e.mac, front + head + icv, tail, |front|, AUTH_TLV_SIZE + |icv|);
  }

  /** The check only reads the octets it is given. */
  lemma ParseAuthPrefix(a: Auth, mac: Mac, b: seq<octet>, tail: seq<octet>, at: nat, left: nat)
    requires at + left <= |b|
    ensures ParseAuth(a, mac, b + tail, at, left, true) == ParseAuth(a, mac, b, at, left, true)
  {
    if left >= AUTH_TLV_SIZE {
      assert (b + tail)[at..at + 2] == b[at..at + 2] && (b + tail)[at + 2..at + 4] == b[at + 2..at + 4];
      assert (b + tail)[at + 6..at + 10] == b[at + 6..at + 10];
      assert (b + tail)[..at + 10] == b[..at + 10];
      var len := Read16(b, at + 2) + 4;
      if AUTH_TLV_SIZE <= len <= left { assert (b + tail)[at + 10..at + len] == b[at + 10..at + len]; }
    }
  }

  /** Every reply that a peer frames as `build` does is received as it was meant: the
      members of the header, and the normalised TLV. */
  lemma ReplyReceived(e: Env, r: Reply, m: Sent, ss: seq<Slot>, icv: seq<octet>, tail: seq<octet>)
    requires SentOk(m) && MayUse(m.id, e.prms.linuxptp) && MayReply(m.id, ActionCode(m.action))
    requires HasData(m.id) && ChainFits(Layout(m.id), ss) && m.data == Padded(ChainEnc(Layout(m.id), ss))
    requires Accepted(e, CoveredOf(m), m.signer, icv) && |icv| == SignerSize(m.signer) - (if m.signer.Signer? then AUTH_TLV_SIZE else 0)
    ensures Receive(e, r, CoveredOf(m) + (icv + tail)) == Received(OK,
      ReplyOf(r, m.prms, m.action, m.sequence, m.id,
              if m.data == [] then r.data else MngData(Tlv(m.id, ChainNorm(Layout(m.id), ss)))))
  {
    hide CoveredOf, Line, ChainEnc, ChainNorm, ChainFits, Receive, ReceiveMng, ReceiveManagement, Accepted;
    var b := CoveredOf(m) + (icv + tail);
    FrameReceived(e, r, m, icv, tail);
    BodyReceived(e, HeaderOf(r, m.prms, m.sequence).(mngType := MANAGEMENT), m, ss);
  }

  /** The header is taken apart, the signature accepted, and the dataField handed on. */
  lemma FrameReceived(e: Env, r: Reply, m: Sent, icv: seq<octet>, tail: seq<octet>)
    requires SentOk(m) && (m.action.RESPONSE? || m.action.ACKNOWLEDGE?)
    requires Accepted(e, CoveredOf(m), m.signer, icv) && |icv| == SignerSize(m.signer) - (if m.signer.Signer? then AUTH_TLV_SIZE else 0)
    ensures Receive(e, r, CoveredOf(m) + (icv + tail))
      == ReceiveManagement(e, HeaderOf(r, m.prms, m.sequence).(mngType := MANAGEMENT), ActionCode(m.action),
                           BigEndian(IdValue(m.id), 2) + m.data, OK)
  {
    hide HeadStart, HeadEnd, ReadHeader, Read16, Covered, ParseAuth, Accepted, Receive, MngTlvOf;
    hide ReceiveError, ReceiveManagement, ReceiveSmpte, BigEndian, HeaderOf, AuthManagement;
    var b, action := CoveredOf(m) + (icv + tail), ActionCode(m.action);
    FrameFields(m.prms, action, m.sequence, m.id, m.data, m.signer, icv + tail);
    var len, rest :| |len| == 2 && b == HeadStart(m.prms) + len + (HeadEnd(m.prms, action, m.sequence) + rest);
    HeaderReceived(r, m.prms, action, m.sequence, len, rest);
    var h := HeaderOf(r, m.prms, m.sequence);
    Dispatched(e, r, b, h);
    if e.auth.on && AuthManagement(e.prms) { SignatureFound(e, m, icv, tail); }
    MngReceived(e, b, FrameSize(m.data, m.signer), |m.data|);
  }

  lemma Dispatched(e: Env, r: Reply, b: seq<octet>, h: Reply)
    requires |b| >= 48 && MNG_MIN_SIZE <= Read16(b, 2) <= |b|
    requires b[0] % 16 == MANAGEMENT_TYPE && b[1] % 16 == 2 && b[33] == 0x7f
    requires h == ReadHeader(r.(msgType := MANAGEMENT_TYPE, version := 2, minorVersion := b[1] / 16), b).(lastSig := false)
    ensures Receive(e, r, b) == ReceiveMng(e, h, b, Read16(b, 2))
  {
    hide Read16, ReadHeader, ReceiveMng, ReceiveSig;
  }

  lemma MngReceived(e: Env, b: seq<octet>, size: nat, data: nat)
    requires MNG_BASE_SIZE + data <= size <= |b| && data % 2 == 0 && (b[46] == 2 || b[46] == 4)
    requires Read16(b, 50) == 2 + data
    requires e.auth.on && AuthManagement(e.prms) ==>
      ParseAuth(e.auth, e.mac, b, MNG_BASE_SIZE + data, size - MNG_BASE_SIZE - data, true) == OK
    ensures MngTlvOf(e, b, size) == Deliver(b[46], b[52..54 + data], OK)
  {
    hide Read16, ParseAuth, AuthManagement, AuthIgnore;
  }

  lemma BodyReceived(e: Env, r: Reply, m: Sent, ss: seq<Slot>)
    requires MayUse(m.id, e.prms.linuxptp) && MayReply(m.id, ActionCode(m.action))
    requires HasData(m.id) && ChainFits(Layout(m.id), ss) && m.data == Padded(ChainEnc(Layout(m.id), ss))
    ensures ReceiveManagement(e, r, ActionCode(m.action), BigEndian(IdValue(m.id), 2) + m.data, OK)
      == Received(OK, r.(action := ActionCode(m.action), id := MngTlv(m.id),
                         data := if m.data == [] then r.data else MngData(Tlv(m.id, ChainNorm(Layout(m.id), ss)))))
  {
    hide Line, ChainEnc, ChainParse, ChainNorm, ChainFits, Read16, FindTlvId, IdValue, BigEndian;
    IdReadBack(m.id, m.data, e.prms.linuxptp);
    PaddedReadBack(Layout(m.id), ss);
  }
}
