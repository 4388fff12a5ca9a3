/**
 The octets of a management message: header, management TLV, pad octet and the
 AUTHENTICATION TLV at the end, and the check of the latter.
 */
module Framing {
  import opened Octets
  import opened TlvLayout
  import opened TlvCodec
  import opened TlvSizes
  import opened SecurityAssociation

  const MANAGEMENT := 0x0001
  const MANAGEMENT_ERROR_STATUS := 0x0002
  const ORGANIZATION_EXTENSION := 0x0003
  const AUTHENTICATION := 0x8009

  const SIGNALING_TYPE := 0xc
  const MANAGEMENT_TYPE := 0xd

  const MNG_MSG_SIZE := 48
  const MNG_BASE_SIZE := 54
  const MNG_MIN_SIZE := 52
  const SIG_BASE_SIZE := 44
  const AUTH_TLV_SIZE := 10

  datatype PortId = PortId(clock: seq<octet>, port: nat)

  predicate PortIdOk(p: PortId) { |p.clock| == 8 && p.port < 0x1_0000 }

  datatype Params = Params(
    transportSpecific: octet, domainNumber: octet, boundaryHops: octet, minorVersion: octet,
    isUnicast: bool, linuxptp: bool, target: PortId, selfId: PortId, useZeroGet: bool,
    rcvSignaling: bool, filterSignaling: bool, rcvSMPTEOrg: bool, sendAuth: bool, rcvAuth: octet,
    sigTlvs: set<nat>)

  /** What the C++ types guarantee. */
  predicate ParamsTyped(p: Params) { PortIdOk(p.target) && PortIdOk(p.selfId) }

  predicate ParamsOk(p: Params) { ParamsTyped(p) && p.transportSpecific <= 0xf }

  datatype Action = GET | SET | RESPONSE | COMMAND | ACKNOWLEDGE

  function ActionCode(a: Action): (n: octet)
    ensures n <= 4
  {
    match a
    case GET => 0
    case SET => 1
    case RESPONSE => 2
    case COMMAND => 3
    case ACKNOWLEDGE => 4
  }

  /** `allowedAction`: the linuxptp identifiers only exist for linuxptp. */
  predicate MayUse(id: MngId, linuxptp: bool) { linuxptp || !Line(id).allowed.np }

  predicate MaySend(id: MngId, action: Action, linuxptp: bool) {
    && MayUse(id, linuxptp)
    && match action
       case GET => Line(id).allowed.get
       case SET => Line(id).allowed.set_
       case COMMAND => Line(id).allowed.command
       case _ => false
  }

  /** `checkReplyAction`. */
  predicate MayReply(id: MngId, action: int) {
    var a := Line(id).allowed;
    if action == ActionCode(ACKNOWLEDGE) then a.command
    else action == ActionCode(RESPONSE) && (a.set_ || a.get)
  }

  /** A TLV structure: its identifier is its dynamic type. */
  datatype Tlv = Tlv(id: MngId, slots: seq<Slot>)

  /** A key as the HMAC library holds it. */
  datatype HmacKey = HmacKey(htype: HmacType, value: seq<octet>)

  /** The HMAC library: allocation and digest may fail. */
  datatype Mac = Mac(alloc: HmacKey -> bool,
                     digest: (HmacKey, seq<octet>, nat) -> Option<seq<octet>>,
                     verify: (HmacKey, seq<octet>, seq<octet>) -> bool)

  /** A digest has the length asked for. */
  ghost predicate DigestSized(mac: Mac) {
    forall k, d, n :: mac.digest(k, d, n).Some? ==> |mac.digest(k, d, n).value| == n
  }

  /** Verification accepts a digest of the same octets. */
  ghost predicate Trusted(mac: Mac) {
    forall k, d, n :: mac.digest(k, d, n).Some? ==> mac.verify(k, d, mac.digest(k, d, n).value)
  }

  /** The authentication members of a message. */
  datatype Auth = Auth(on: bool, sa: SppMap, spp: nat, key: nat, hmac: HmacKey)

  function KeyOf(sa: SppMap, spp: nat, key: nat): HmacKey
    requires Have(sa, spp, key)
  {
    HmacKey(sa[spp].keys[key].htype, sa[spp].keys[key].value)
  }

  /** While authentication is on, the key in use is the selected key of the stored SA. */
  predicate AuthOk(a: Auth) {
    SaOk(a.sa) && (a.on ==> Have(a.sa, a.spp, a.key) && a.hmac == KeyOf(a.sa, a.spp, a.key))
  }

  lemma MacSizeBounds(a: Auth)
    requires AuthOk(a) && a.on
    ensures var n := MacSize(a.sa, a.spp, a.key); n % 2 == 0 && 2 <= n <= 32
    ensures a.spp < 256 && a.key < 0x1_0000_0000
  {
  }

  // ---------------------------------------------------------------- octets

  function PortIdOctets(p: PortId): (b: seq<octet>)
    requires PortIdOk(p)
    ensures |b| == 10
  {
    p.clock + BigEndian(p.port, 2)
  }

  function Zeros(n: nat): (b: seq<octet>)
    ensures |b| == n
  {
    seq(n, _ => 0)
  }

  /** The header up to the message length. */
  function HeadStart(p: Params): (b: seq<octet>)
    requires ParamsOk(p)
    ensures |b| == 2
  {
    [MANAGEMENT_TYPE + 16 * p.transportSpecific, p.minorVersion % 16 * 16 + 2]
  }

  /** The header behind the message length, the management fields included. */
  function HeadEnd(p: Params, action: octet, sequence: nat): (b: seq<octet>)
    requires ParamsOk(p)
    ensures |b| == 44
  {
    [p.domainNumber, 0, if p.isUnicast then 4 else 0, 0] + Zeros(12)
    + (PortIdOctets(p.selfId) + BigEndian(sequence, 2) + [4, 0x7f])
    + (PortIdOctets(p.target) + [p.boundaryHops, p.boundaryHops, action, 0])
  }

  /** Everything in front of the dataField, with the two lengths filled in. */
  function Front(p: Params, action: octet, sequence: nat, id: MngId, total: nat, data: nat): (b: seq<octet>)
    requires ParamsOk(p)
    ensures |b| == MNG_BASE_SIZE
  {
    HeadStart(p) + BigEndian(total % 0x1_0000, 2) + (HeadEnd(p, action, sequence) + BigEndian(MANAGEMENT, 2))
    + BigEndian((2 + data) % 0x1_0000, 2) + BigEndian(IdValue(id), 2)
  }

  function AuthHead(spp: octet, key: nat, macSize: nat): (b: seq<octet>)
    ensures |b| == AUTH_TLV_SIZE
  {
    BigEndian(AUTHENTICATION, 2) + BigEndian((AUTH_TLV_SIZE + macSize - 4) % 0x1_0000, 2) + [spp, 0] + BigEndian(key, 4)
  }

  function Padded(b: seq<octet>): (r: seq<octet>)
    ensures |r| == RoundEven(|b|)
  {
    if |b| % 2 == 1 then b + [0] else b
  }

  /** The selected key of the sender, if it sends an AUTHENTICATION TLV. */
  datatype Signer = Unsigned | Signer(spp: octet, key: nat, macSize: nat)

  function SignerSize(s: Signer): nat { if s.Unsigned? then 0 else AUTH_TLV_SIZE + s.macSize }

  function FrameSize(data: seq<octet>, s: Signer): nat { MNG_BASE_SIZE + |data| + SignerSize(s) }

  /** The octets of a message without the integrity check value: what is digested. */
  function Covered(p: Params, action: octet, sequence: nat, id: MngId, data: seq<octet>, s: Signer): (b: seq<octet>)
    requires ParamsOk(p)
    ensures |b| == MNG_BASE_SIZE + |data| + if s.Unsigned? then 0 else AUTH_TLV_SIZE
  {
    Front(p, action, sequence, id, FrameSize(data, s), |data|) + data
    + if s.Unsigned? then [] else AuthHead(s.spp, s.key, s.macSize)
  }

  // ---------------------------------------------------------------- the check

  function Read16(b: seq<octet>, at: nat): (n: nat)
    requires at + 2 <= |b|
    ensures n < 0x1_0000
  {
    FromBigEndianRoundTrip(b[at..at + 2]);
    Pow256Values();
    FromBigEndian(b[at..at + 2])
  }

  /** The lengths in the header and in the TLV are right if and only if they fit 16 bits. */
  lemma FrontLengths(p: Params, action: octet, sequence: nat, id: MngId, total: nat, data: nat)
    requires ParamsOk(p)
    ensures var b := Front(p, action, sequence, id, total, data);
      && Read16(b, 2) == total % 0x1_0000 && Read16(b, 50) == (2 + data) % 0x1_0000
      && (Read16(b, 2) == total <==> total < 0x1_0000)
      && (Read16(b, 50) == 2 + data <==> 2 + data < 0x1_0000)
  {
    hide HeadStart, HeadEnd, BigEndian, FromBigEndian, IdValue;
    Pow256Values();
    var b := Front(p, action, sequence, id, total, data);
    var n, m := total % 0x1_0000, (2 + data) % 0x1_0000;
    assert b[2..4] == BigEndian(n, 2) && b[50..52] == BigEndian(m, 2);
    BigEndianRoundTrip(n, 2);
    BigEndianRoundTrip(m, 2);
  }

  /** `parseAuth` on a TLV at `at`, with `left` octets up to the end of the message. A
      TLV of a signalling message comes with its own length, hence without `check`. */
  function ParseAuth(a: Auth, mac: Mac, b: seq<octet>, at: nat, left: nat, check: bool): (err: Error)
    requires at + left <= |b|
    ensures err == OK || err == AUTH || err == AUTH_NONE || err == AUTH_NOKEY || err == AUTH_WRONG
  {
    if left < AUTH_TLV_SIZE || (check && Read16(b, at) != AUTHENTICATION) then AUTH_NONE
    else
      var spp, key := b[at + 4], FromBigEndian(b[at + 6..at + 10]);
      var len := if check then Read16(b, at + 2) + 4 else left;
      if !Have(a.sa, spp, key) then AUTH_NOKEY
      else if len > left || len < AUTH_TLV_SIZE || b[at + 5] != 0 then AUTH
      else
        var icv := len - AUTH_TLV_SIZE;
        if icv % 2 == 1 || icv < 2 then AUTH
        else if icv > MacSize(a.sa, spp, a.key) then AUTH_WRONG
        else
          var own := a.spp == spp && a.key == key;
          var hmac := if own then a.hmac else KeyOf(a.sa, spp, key);
          if !own && !mac.alloc(hmac) then AUTH
          else if mac.verify(hmac, b[..at + AUTH_TLV_SIZE], b[at + AUTH_TLV_SIZE..at + len]) then OK
          else AUTH_WRONG
  }

  /** An AUTHENTICATION TLV of `len` octets whose ICV is right for the octets in front of it
      under the key that it names. */
  predicate Authentic(a: Auth, mac: Mac, b: seq<octet>, at: nat, len: nat)
    requires AUTH_TLV_SIZE <= len && at + len <= |b|
  {
    var spp, key, icv := b[at + 4], FromBigEndian(b[at + 6..at + 10]), len - AUTH_TLV_SIZE;
    && Have(a.sa, spp, key) && b[at + 5] == 0
    && icv % 2 == 0 && 2 <= icv <= MacSize(a.sa, spp, a.key)
    && mac.verify(KeyOf(a.sa, spp, key), b[..at + AUTH_TLV_SIZE], b[at + AUTH_TLV_SIZE..at + len])
  }

  /** Nothing is accepted but what the key named in the message verifies. That is accepted if
      and only if the key is the selected one, or the library can make it. */
  lemma AuthExactly(a: Auth, mac: Mac, b: seq<octet>, at: nat, left: nat, check: bool)
    requires at + left <= |b| && AuthOk(a) && a.on && AUTH_TLV_SIZE <= left
    requires check ==> Read16(b, at) == AUTHENTICATION
    ensures var len := if check then Read16(b, at + 2) + 4 else left;
      var spp, key := b[at + 4], FromBigEndian(b[at + 6..at + 10]);
      ParseAuth(a, mac, b, at, left, check) == OK <==>
        && AUTH_TLV_SIZE <= len <= left && Authentic(a, mac, b, at, len)
        && ((spp == a.spp && key == a.key) || mac.alloc(KeyOf(a.sa, spp, key)))
  {
    hide Read16, FromBigEndian, SaOk;
  }

  lemma AuthHeadFields(spp: octet, key: nat, macSize: nat)
    requires key < 0x1_0000_0000 && macSize <= 32
    ensures var h := AuthHead(spp, key, macSize);
      && Read16(h, 0) == AUTHENTICATION && Read16(h, 2) == AUTH_TLV_SIZE + macSize - 4
      && h[4] == spp && h[5] == 0 && FromBigEndian(h[6..10]) == key
  {
    Pow256Values();
    var h := AuthHead(spp, key, macSize);
    var n := (AUTH_TLV_SIZE + macSize - 4) % 0x1_0000;
    assert h[0..2] == BigEndian(AUTHENTICATION, 2) && h[2..4] == BigEndian(n, 2) && h[6..10] == BigEndian(key, 4);
    BigEndianRoundTrip(AUTHENTICATION, 2);
    BigEndianRoundTrip(n, 2);
    BigEndianRoundTrip(key, 4);
  }

  lemma ReadShift(b: seq<octet>, at: nat, h: seq<octet>, i: nat)
    requires at + |h| <= |b| && b[at..at + |h|] == h && i + 2 <= |h|
    ensures Read16(b, at + i) == Read16(h, i)
  {
    SubSlice(b, at, |h|, i, 2);
  }

  lemma SubSlice<T>(b: seq<T>, at: nat, n: nat, i: nat, k: nat)
    requires at + n <= |b| && i + k <= n
    ensures b[at..at + n][i..i + k] == b[at + i..at + i + k]
  {
    var x, y := b[at..at + n][i..i + k], b[at + i..at + i + k];
    assert |x| == |y|;
    forall j | 0 <= j < k ensures x[j] == y[j] {
      assert x[j] == b[at..at + n][i + j];
    }
  }

  /** What the sender's key signs, the same key accepts: the octets digested by `build` are
      the octets verified by `parseAuth`, whatever follows them. */
  lemma SignedAccepted(a: Auth, mac: Mac, front: seq<octet>, icv: seq<octet>, tail: seq<octet>)
    requires AuthOk(a) && a.on && Trusted(mac) && DigestSized(mac)
    requires a.spp < 256
    requires var n := MacSize(a.sa, a.spp, a.key);
      mac.digest(a.hmac, front + AuthHead(a.spp, a.key, n), n) == Some(icv)
    ensures ParseAuth(a, mac, front + AuthHead(a.spp, a.key, MacSize(a.sa, a.spp, a.key)) + icv + tail,
                      |front|, AUTH_TLV_SIZE + |icv| + |tail|, true) == OK
  {
    hide AuthHead, AuthOk, SaOk, Read16, BigEndian, FromBigEndian;
    MacSizeBounds(a);
    var n := MacSize(a.sa, a.spp, a.key);
    var h := AuthHead(a.spp, a.key, n);
    var b, at := front + h + icv + tail, |front|;
    AuthHeadFields(a.spp, a.key, n);
    assert b[at..at + 10] == h;
    ReadShift(b, at, h, 0);
    ReadShift(b, at, h, 2);
    assert b[at + 4] == h[4] && b[at + 5] == h[5] && b[at + 6..at + 10] == h[6..10];
    assert b[..at + 10] == front + h && b[at + 10..at + 10 + n] == icv;
    AuthOkHave(a);
  }

  lemma AuthOkHave(a: Auth)
    requires AuthOk(a) && a.on
    ensures Have(a.sa, a.spp, a.key) && a.hmac == KeyOf(a.sa, a.spp, a.key)
  {
  }
}
