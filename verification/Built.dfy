/**
 The messages that are built, octet by octet, as IEEE Std 1588 lays them out.
 */
module BuiltMessages {
  import opened Octets
  import opened TlvLayout
  import opened TlvCodec
  import opened TlvSizes
  import opened SecurityAssociation
  import opened Framing
  import opened Receiving
  import opened SendingState
  import opened Messages

  /** The octets in front of the dataField. */
  predicate FrontIs(b: seq<octet>, p: Params, action: nat, sequence: nat, id: MngId, total: nat, data: nat) {
    && |b| >= 54 && PortIdOk(p.selfId) && PortIdOk(p.target)
    && b[0] == 0xd + 16 * p.transportSpecific && b[1] == p.minorVersion % 16 * 16 + 2
    && b[2] == total / 256 % 256 && b[3] == total % 256
    && b[4] == p.domainNumber && b[5] == 0 && b[6] == (if p.isUnicast then 4 else 0)
    && (forall i :: 7 <= i < 20 ==> b[i] == 0)
    && b[20..28] == p.selfId.clock && b[28] == p.selfId.port / 256 && b[29] == p.selfId.port % 256
    && b[30] == sequence / 256 % 256 && b[31] == sequence % 256 && b[32] == 4 && b[33] == 0x7f
    && b[34..42] == p.target.clock && b[42] == p.target.port / 256 && b[43] == p.target.port % 256
    && b[44] == p.boundaryHops && b[45] == p.boundaryHops && b[46] == action && b[47] == 0
    && b[48] == 0 && b[49] == 1 && b[50] == (2 + data) / 256 % 256 && b[51] == (2 + data) % 256
    && b[52] == IdValue(id) / 256 && b[53] == IdValue(id) % 256
  }

  lemma FrontOctets(p: Params, action: octet, sequence: nat, id: MngId, total: nat, data: nat)
    requires ParamsOk(p)
    ensures FrontIs(Front(p, action, sequence, id, total, data), p, action, sequence, id, total, data)
  {
    hide IdValue, BigEndian, HeadStart, HeadEnd, HeadEndIs;
    IdValueBound(id);
    HeadOctets(p, action, sequence);
    BigEndianOctets(total % 0x1_0000);
    BigEndianOctets((2 + data) % 0x1_0000);
    BigEndianOctets(IdValue(id));
    BigEndianOctets(MANAGEMENT);
    ShortMod(total);
    ShortMod(2 + data);
    var front := Front(p, action, sequence, id, total, data);
    SixParts(HeadStart(p), BigEndian(total % 0x1_0000, 2), HeadEnd(p, action, sequence), BigEndian(MANAGEMENT, 2),
             BigEndian((2 + data) % 0x1_0000, 2), BigEndian(IdValue(id), 2), front);
    Placed(front, p, action, sequence);
  }

  lemma SixParts(x: seq<octet>, y: seq<octet>, z: seq<octet>, u: seq<octet>, v: seq<octet>, w: seq<octet>, f: seq<octet>)
    requires |x| == |y| == |u| == |v| == |w| == 2 && |z| == 44 && f == x + y + (z + u) + v + w
    ensures |f| == 54 && f[4..48] == z && f[0] == x[0] && f[1] == x[1] && f[2] == y[0] && f[3] == y[1]
    ensures f[48] == u[0] && f[49] == u[1] && f[50] == v[0] && f[51] == v[1] && f[52] == w[0] && f[53] == w[1]
  {
  }

  predicate HeadEndIs(h: seq<octet>, p: Params, action: nat, sequence: nat) {
    && |h| == 44 && PortIdOk(p.selfId) && PortIdOk(p.target)
    && h[0] == p.domainNumber && h[1] == 0 && h[2] == (if p.isUnicast then 4 else 0)
    && (forall i :: 3 <= i < 16 ==> h[i] == 0)
    && h[16..24] == p.selfId.clock && h[24] == p.selfId.port / 256 && h[25] == p.selfId.port % 256
    && h[26] == sequence / 256 % 256 && h[27] == sequence % 256 && h[28] == 4 && h[29] == 0x7f
    && h[30..38] == p.target.clock && h[38] == p.target.port / 256 && h[39] == p.target.port % 256
    && h[40] == p.boundaryHops && h[41] == p.boundaryHops && h[42] == action && h[43] == 0
  }

  lemma HeadOctets(p: Params, action: octet, sequence: nat)
    requires ParamsOk(p)
    ensures HeadEndIs(HeadEnd(p, action, sequence), p, action, sequence)
    ensures HeadStart(p) == [0xd + 16 * p.transportSpecific, p.minorVersion % 16 * 16 + 2]
  {
    hide BigEndian, PortIdOctets;
    BigEndianOctets(sequence);
    PortOctets(p.selfId);
    PortOctets(p.target);
    var first: seq<octet> := [p.domainNumber, 0, if p.isUnicast then 4 else 0, 0] + Zeros(12);
    var seqs: seq<octet> := BigEndian(sequence, 2) + [4, 0x7f];
    var last: seq<octet> := [p.boundaryHops, p.boundaryHops, action, 0];
    var own, target := PortIdOctets(p.selfId), PortIdOctets(p.target);
    var h := HeadEnd(p, action, sequence);
    assert h == first + own + seqs + target + last;
    FiveParts(first, own, seqs, target, last);
    assert h[16..24] == own[..8] && h[30..38] == target[..8];
  }

  lemma PortOctets(p: PortId)
    requires PortIdOk(p)
    ensures var b := PortIdOctets(p); b[..8] == p.clock && b[8] == p.port / 256 && b[9] == p.port % 256
  {
    hide BigEndian;
    BigEndianOctets(p.port);
  }

  lemma FiveParts(x: seq<octet>, y: seq<octet>, z: seq<octet>, u: seq<octet>, v: seq<octet>)
    requires |x| == 16 && |y| == 10 && |z| == 4 && |u| == 10 && |v| == 4
    ensures var h := x + y + z + u + v;
      |h| == 44 && h[..16] == x && h[16..26] == y && h[26..30] == z && h[30..40] == u && h[40..] == v
  {
  }

  lemma Placed(front: seq<octet>, p: Params, action: nat, sequence: nat)
    requires |front| == 54 && HeadEndIs(front[4..48], p, action, sequence)
    ensures front[4] == p.domainNumber && front[5] == 0 && front[6] == (if p.isUnicast then 4 else 0)
    ensures forall i :: 7 <= i < 20 ==> front[i] == 0
    ensures front[20..28] == p.selfId.clock && front[28] == p.selfId.port / 256 && front[29] == p.selfId.port % 256
    ensures front[30] == sequence / 256 % 256 && front[31] == sequence % 256 && front[32] == 4 && front[33] == 0x7f
    ensures front[34..42] == p.target.clock && front[42] == p.target.port / 256 && front[43] == p.target.port % 256
    ensures front[44] == p.boundaryHops && front[45] == p.boundaryHops && front[46] == action && front[47] == 0
  {
    var h := front[4..48];
    assert forall i :: 4 <= i < 48 ==> front[i] == h[i - 4];
    assert front[20..28] == h[16..24] && front[34..42] == h[30..38];
  }

  lemma ShortMod(n: nat)
    ensures n % 0x1_0000 / 256 % 256 == n / 256 % 256 && n % 0x1_0000 % 256 == n % 256
  {
  }

  /** The octets of the AUTHENTICATION TLV in front of its ICV. */
  lemma AuthOctets(spp: octet, key: nat, macSize: nat)
    requires macSize <= 32
    ensures AuthHead(spp, key, macSize)
         == [0x80, 0x09, 0, 6 + macSize, spp, 0, key / 0x100_0000 % 256, key / 0x1_0000 % 256, key / 0x100 % 256, key % 256]
  {
    hide BigEndian;
    BigEndianOctets(AUTHENTICATION);
    BigEndianOctets(6 + macSize);
    BigEndianOctets(key);
  }

  /** GET is 0, SET is 1 and COMMAND is 3. */
  function SentCode(a: Action): nat { if a.GET? then 0 else if a.SET? then 1 else 3 }

  /** The AUTHENTICATION TLV in front of its digest, which has `size` octets. */
  predicate AuthIs(b: seq<octet>, at: nat, spp: nat, key: nat, size: nat) {
    && at + 10 <= |b| && spp < 256
    && b[at] == 0x80 && b[at + 1] == 0x09 && b[at + 2] == 0 && b[at + 3] == 6 + size && b[at + 4] == spp && b[at + 5] == 0
    && b[at + 6] == key / 0x100_0000 && b[at + 7] == key / 0x1_0000 % 256
    && b[at + 8] == key / 0x100 % 256 && b[at + 9] == key % 256
  }

  /** A built message: the header, the dataField (zeros or none for GET, the encoded data and
      its pad octet otherwise), the AUTHENTICATION TLV, and the digest of all that. */
  lemma MessageOctets(m: Message, b: seq<octet>, sequence: nat)
    requires m.Valid() && m.CanBuild(sequence, |b|) && m.IsBuilt(b, sequence) && sequence < 0x1_0000
    ensures var n := |Payload(m.Sends(), m.prms.useZeroGet)|;
      && 54 + n <= m.msgLen <= |b|
      && FrontIs(b, m.prms, SentCode(m.sendAction), sequence, m.tlvId, m.msgLen, n)
      && (m.sendAction.GET? ==> forall i :: 54 <= i < 54 + n ==> b[i] == 0)
      && (m.dataSend.Some? ==> b[54..54 + n] == Padded(ChainEnc(Layout(m.tlvId), m.dataSend.value.slots)))
      && (!m.Signing() ==> m.msgLen == 54 + n)
      && (m.Signing() ==>
           && m.msgLen == 64 + n + MacSize(m.sa, m.sppId, m.keyId)
           && AuthIs(b, 54 + n, m.sppId, m.keyId, MacSize(m.sa, m.sppId, m.keyId))
           && m.lib.digest(m.hmac, b[..64 + n], MacSize(m.sa, m.sppId, m.keyId)) == Some(b[64 + n..m.msgLen]))
  {
    hide Line, Agrees, VariableLayout, SendingOk, Payload, PlannedLength, SendingFits, Front, AuthHead, AuthOk, FrontIs, DigestSized, AuthIs;
    m.PlanEven();
    SentIs(m);
    var out := m.Outgoing(sequence);
    var n := |out.data|;
    var covered, icv := CoveredOf(out), Digested(out, m.hmac, m.lib).value;
    var front := Front(out.prms, ActionCode(out.action), sequence, out.id, FrameSize(out.data, out.signer), n);
    var head: seq<octet> := if m.Signing() then AuthHead(out.signer.spp, out.signer.key, out.signer.macSize) else [];
    assert covered == front + out.data + head;
    Cut(b, m.msgLen, front, out.data, head, icv);
    FrontOctets(out.prms, ActionCode(out.action), sequence, out.id, m.msgLen, n);
    FrontPrefix(b, front, m.prms, SentCode(m.sendAction), sequence, m.tlvId, m.msgLen, n);
    PayloadIs(m.Sends(), m.prms.useZeroGet);
    assert forall i :: 54 <= i < 54 + n ==> b[i] == b[54..54 + n][i - 54];
    if m.Signing() { SignedOctets(m, b, n, head, out.signer); }
  }

  lemma SentIs(m: Message)
    requires m.Valid()
    ensures ActionCode(m.sendAction) == SentCode(m.sendAction)
  {
  }

  lemma PayloadIs(s: Sending, useZeroGet: bool)
    requires SendingOk(s) && SendingFits(s)
    ensures s.action.GET? ==> forall i :: 0 <= i < |Payload(s, useZeroGet)| ==> Payload(s, useZeroGet)[i] == 0
    ensures s.data.Some? ==> Payload(s, useZeroGet) == Padded(ChainEnc(Layout(s.id), s.data.value.slots))
  {
    hide Line, ChainEnc, ChainFits, PlannedSize, Padded;
  }

  lemma SignedOctets(m: Message, b: seq<octet>, n: nat, head: seq<octet>, s: Signer)
    requires m.Valid() && m.Signing() && |b| >= 64 + n && s == m.SignerNow()
    requires head == AuthHead(s.spp, s.key, s.macSize) && b[54 + n..64 + n] == head
    ensures s.spp == m.sppId && s.key == m.keyId && s.macSize == MacSize(m.sa, m.sppId, m.keyId)
    ensures AuthIs(b, 54 + n, m.sppId, m.keyId, s.macSize)
  {
    hide AuthHead, AuthOk, SaOk;
    MacSizeBounds(m.AuthNow());
    AuthOctets(s.spp, s.key, s.macSize);
    assert b[54 + n + 0] == head[0] && b[54 + n + 1] == head[1] && b[54 + n + 2] == head[2] && b[54 + n + 3] == head[3];
    assert b[54 + n + 4] == head[4] && b[54 + n + 5] == head[5] && b[54 + n + 6] == head[6] && b[54 + n + 7] == head[7];
    assert b[54 + n + 8] == head[8] && b[54 + n + 9] == head[9];
  }

  lemma Cut(b: seq<octet>, size: nat, front: seq<octet>, data: seq<octet>, head: seq<octet>, icv: seq<octet>)
    requires size <= |b| && b[..size] == (front + data + head) + icv
    ensures size == |front| + |data| + |head| + |icv| && b[..|front|] == front && b[|front|..|front| + |data|] == data
    ensures b[|front| + |data|..|front| + |data| + |head|] == head && b[..|front| + |data| + |head|] == front + data + head
    ensures b[|front| + |data| + |head|..size] == icv
  {
    var whole := front + data + head + icv;
    assert b[..|front|] == b[..size][..|front|];
    assert b[|front|..|front| + |data|] == b[..size][|front|..|front| + |data|];
    assert b[|front| + |data|..|front| + |data| + |head|] == b[..size][|front| + |data|..|front| + |data| + |head|];
    assert b[..|front| + |data| + |head|] == b[..size][..|front| + |data| + |head|];
    assert b[|front| + |data| + |head|..size] == b[..size][|front| + |data| + |head|..];
  }

  lemma FrontPrefix(b: seq<octet>, front: seq<octet>, p: Params, action: nat, sequence: nat, id: MngId, total: nat, data: nat)
    requires |b| >= 54 && b[..54] == front && FrontIs(front, p, action, sequence, id, total, data)
    ensures FrontIs(b, p, action, sequence, id, total, data)
  {
    hide IdValue;
    assert forall i :: 0 <= i < 54 ==> b[i] == front[i];
    assert b[20..28] == front[20..28] && b[34..42] == front[34..42];
  }
}
