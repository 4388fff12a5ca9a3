/**
 `Message`: building a message into a buffer, and receiving one.
 */
module Messages {
  import opened Octets
  import opened TlvLayout
  import opened TlvCodec
  import opened TlvSizes
  import opened MessageProcessor
  import opened SecurityAssociation
  import opened Framing
  import opened Signalling
  import opened Receiving
  import opened SendingState
  import opened TlvHandling

  // ---------------------------------------------------------------- the buffer

  /** A struct or a member of one is written over a part of the buffer. */
  method Store(buf: array<octet>, at: nat, bs: seq<octet>)
    requires at + |bs| <= buf.Length
    modifies buf
    ensures Wrote(old(buf[..]), at, bs, buf[..])
  {
    forall i | 0 <= i < |bs| { buf[at + i] := bs[i]; }
    assert buf[..] == old(buf[..])[..at] + bs + old(buf[..])[at + |bs|..];
  }

  lemma StoredFirst(before: seq<octet>, bs: seq<octet>, after: seq<octet>)
    requires Wrote(before, 0, bs, after)
    ensures after[..|bs|] == bs
  {
  }

  /** A part of a buffer whose first octets are known is replaced. */
  lemma Patched(before: seq<octet>, at: nat, bs: seq<octet>, after: seq<octet>,
                x: seq<octet>, y: seq<octet>, z: seq<octet>)
    requires Wrote(before, at, bs, after) && |x| == at && |y| == |bs| && |x + y + z| <= |before|
    requires before[..|x + y + z|] == x + y + z
    ensures after[..|x + y + z|] == x + bs + z
  {
    var n, m := |x + y + z|, at + |bs|;
    assert before[..at] == before[..n][..at] == x;
    assert before[m..n] == before[..n][m..] == z;
    assert after[..n] == before[..at] + bs + before[m..n];
  }

  /** What is written behind the known octets is known as well. */
  lemma Appended(before: seq<octet>, bs: seq<octet>, after: seq<octet>, x: seq<octet>)
    requires Wrote(before, |x|, bs, after) && before[..|x|] == x
    ensures after[..|x| + |bs|] == x + bs
  {
  }

  // ---------------------------------------------------------------- the object

  /** The octets of `build`: what the receiver's `parseAuth` verifies, and the digest of it. */
  ghost function Digested(m: Sent, hmac: HmacKey, lib: Mac): Option<seq<octet>>
    requires ParamsOk(m.prms)
  {
    if m.signer.Unsigned? then Some([]) else lib.digest(hmac, CoveredOf(m), m.signer.macSize)
  }

  class Message {
    const lib: Mac
    var prms: Params
    var sendAction: Action
    var tlvId: MngId
    var dataSend: Option<Tlv>
    var msgLen: nat
    var haveAuth: bool
    var sa: SppMap
    var sppId: nat
    var keyId: nat
    var hmac: HmacKey
    var reply: Reply

    function Sends(): Sending
      reads this`sendAction, this`tlvId, this`dataSend
    {
      Sending(sendAction, tlvId, dataSend)
    }

    function AuthNow(): Auth
      reads this`haveAuth, this`sa, this`sppId, this`keyId, this`hmac
    {
      Auth(haveAuth, sa, sppId, keyId, hmac)
    }

    ghost predicate Valid()
      reads this`prms, this`sendAction, this`tlvId, this`dataSend,
            this`haveAuth, this`sa, this`sppId, this`keyId, this`hmac
    {
      ParamsOk(prms) && SendingOk(Sends()) && AuthOk(AuthNow())
    }

    predicate Signing()
      reads this`prms, this`haveAuth
    {
      haveAuth && prms.sendAuth
    }

    function SignerNow(): Signer
      requires AuthOk(AuthNow())
      reads this`prms, this`haveAuth, this`sa, this`sppId, this`keyId, this`hmac
    {
      if Signing() then MacSizeBounds(AuthNow()); Signer(sppId, keyId, MacSize(sa, sppId, keyId)) else Unsigned
    }

    ghost function Outgoing(sequence: nat): Sent
      requires Valid() && SendingFits(Sends())
      reads this`prms, this`sendAction, this`tlvId, this`dataSend,
            this`haveAuth, this`sa, this`sppId, this`keyId, this`hmac
    {
      Sent(prms, sendAction, sequence, tlvId, Payload(Sends(), prms.useZeroGet), SignerNow())
    }

    /** The values fit, the buffer holds the planned length, and the digest can be made. */
    ghost predicate CanBuild(sequence: nat, length: nat)
      requires Valid()
      reads this`prms, this`sendAction, this`tlvId, this`dataSend,
            this`haveAuth, this`sa, this`sppId, this`keyId, this`hmac
    {
      && SendingFits(Sends()) && PlannedLen() <= length
      && Digested(Outgoing(sequence), hmac, lib).Some?
    }

    /** The message fills the planned length of the buffer; if it is signed, its last octets
        are the digest of the others. */
    ghost predicate IsBuilt(b: seq<octet>, sequence: nat)
      requires Valid() && CanBuild(sequence, |b|)
      reads this`prms, this`sendAction, this`tlvId, this`dataSend,
            this`haveAuth, this`sa, this`sppId, this`keyId, this`hmac, this`msgLen
    {
      var m := Outgoing(sequence);
      msgLen == PlannedLen() && msgLen <= |b| && b[..msgLen] == CoveredOf(m) + Digested(m, hmac, lib).value
    }

    function PlannedLen(): int
      requires AuthOk(AuthNow())
      reads this`prms, this`sendAction, this`tlvId, this`dataSend,
            this`haveAuth, this`sa, this`sppId, this`keyId, this`hmac
    {
      PlannedLength(Sends(), prms.useZeroGet, SignerSize(SignerNow()))
    }

    constructor (lib: Mac, prms: Params, reply: Reply)
      requires ParamsTyped(prms)
      ensures Valid() && this.lib == lib && this.reply == reply && AuthNow() == NO_AUTH && Sends() == NO_SENDING
      ensures this.prms == if prms.transportSpecific > 0xf then prms.(transportSpecific := 0) else prms
    {
      hide Line;
      this.lib, this.reply := lib, reply;
      this.prms := if prms.transportSpecific > 0xf then prms.(transportSpecific := 0) else prms;
      sendAction, tlvId, dataSend, msgLen := GET, NULL_PTP_MANAGEMENT, None, 0;
      haveAuth, sa, sppId, keyId, hmac := false, map[], 255, 0, HmacKey(SHA256, []);
    }

    method UpdateParams(p: Params) returns (ok: bool)
      requires Valid() && ParamsTyped(p)
      modifies this`prms
      ensures Valid() && ok == (p.transportSpecific <= 0xf) && prms == if ok then p else old(prms)
    {
      hide SendingOk, AuthOk;
      if p.transportSpecific > 0xf { return false; }
      prms := p;
      ok := true;
    }

    method SetAction(action: Action, id: MngId, data: Option<Tlv>) returns (ok: bool)
      requires Valid() && CallTyped(SetActionCall(action, id, data))
      modifies this`sendAction, this`tlvId, this`dataSend
      ensures Valid() && ok == CallAllowed(SetActionCall(action, id, data), prms.linuxptp)
      ensures Sends() == ApplySend(old(Sends()), SetActionCall(action, id, data), prms.linuxptp)
    {
      hide Line, ChainTyped, AuthOk, ParamsOk, SendingOk;
      ghost var c := SetActionCall(action, id, data);
      SendKeepsOk(Sends(), c, prms.linuxptp);
      if !MaySend(id, action, prms.linuxptp) { return false; }
      if action != GET && HasData(id) {
        if data.None? || data.value.id != id { return false; }
        dataSend := data;
      } else {
        dataSend := None;
      }
      sendAction := action;
      tlvId := id;
      ok := true;
    }

    method ClearData()
      requires Valid()
      modifies this`sendAction, this`dataSend
      ensures Valid() && Sends() == ApplySend(old(Sends()), ClearDataCall, prms.linuxptp)
    {
      hide Line, ChainTyped, AuthOk, ParamsOk, SendingOk;
      SendKeepsOk(Sends(), ClearDataCall, prms.linuxptp);
      if dataSend.Some? {
        sendAction := GET;
        dataSend := None;
      }
    }

    /** Whether the HMAC library makes the key may differ from call to call. */
    method UseAuth(newSa: SppMap, spp: nat, key: nat, made: bool) returns (ok: bool)
      requires Valid() && SaOk(newSa)
      modifies this`haveAuth, this`sa, this`sppId, this`keyId, this`hmac
      ensures Valid() && ok == (Have(newSa, spp, key) && made)
      ensures AuthNow() == ApplyAuth(old(AuthNow()), UseAuthCall(newSa, spp, key, made))
    {
      hide SendingOk, ParamsOk, SaOk;
      if !Have(newSa, spp, key) || !made { return false; }
      hmac, sa, sppId, keyId, haveAuth := KeyOf(newSa, spp, key), newSa, spp, key, true;
      ok := true;
    }

    method ChangeAuth(spp: nat, key: nat, made: bool) returns (ok: bool)
      requires Valid()
      modifies this`sppId, this`keyId, this`hmac
      ensures Valid() && AuthNow() == ApplyAuth(old(AuthNow()), ChangeAuthCall(spp, key, made))
      ensures ok == (haveAuth && Have(sa, spp, key) && made)
    {
      hide SendingOk, ParamsOk, SaOk;
      if !haveAuth || !Have(sa, spp, key) || !made { return false; }
      hmac, sppId, keyId := KeyOf(sa, spp, key), spp, key;
      ok := true;
    }

    method ChangeKey(key: nat, made: bool) returns (ok: bool)
      requires Valid()
      modifies this`keyId, this`hmac
      ensures Valid() && AuthNow() == ApplyAuth(old(AuthNow()), ChangeKeyCall(key, made))
      ensures ok == (haveAuth && Have(sa, sppId, key) && made)
    {
      hide SendingOk, ParamsOk, SaOk;
      if !haveAuth || !Have(sa, sppId, key) || !made { return false; }
      hmac, keyId := KeyOf(sa, sppId, key), key;
      ok := true;
    }

    method DisableAuth()
      requires Valid()
      modifies this`haveAuth
      ensures Valid() && AuthNow() == ApplyAuth(old(AuthNow()), DisableAuthCall)
    {
      hide SendingOk, ParamsOk, SaOk;
      haveAuth := false;
    }

    /** The dataField behind the first 54 octets. */
    method BuildData(buf: array<octet>) returns (err: Error, n: nat)
      requires Valid() && buf.Length >= MNG_BASE_SIZE
      modifies buf
      ensures err == OK <==> SendingFits(Sends()) && MNG_BASE_SIZE + |Payload(Sends(), prms.useZeroGet)| <= buf.Length
      ensures err == OK ==>
        && n == |Payload(Sends(), prms.useZeroGet)|
        && Wrote(old(buf[..]), MNG_BASE_SIZE, Payload(Sends(), prms.useZeroGet), buf[..])
      ensures err != OK ==> err == TOO_SMALL || (err == VAL && !SendingFits(Sends()))
    {
      hide Line, ChainFits, ChainEnc, ChainTyped, PlannedSize, Wrote, Padded, AuthOk, ParamsOk;
      PlannedSizeEmpty(tlvId);
      var mp := new MsgProc(true, buf, MNG_BASE_SIZE, buf.Length - MNG_BASE_SIZE);
      err := OK;
      if sendAction != GET && dataSend.Some? {
        err := BuildPadded(mp, tlvId, dataSend.value);
      } else if sendAction == GET && !prms.useZeroGet && HasData(tlvId) {
        var size := PlannedSize(tlvId, None);
        err := if size < 0 then INVALID_ID else if size > mp.left then TOO_SMALL else OK;
        if err == OK { mp.Put(Zeros(size)); }
      } else {
        WroteNothing(buf[..], MNG_BASE_SIZE);
      }
      n := mp.size;
    }

    /** `build` succeeds exactly when the values fit and the buffer holds the planned length;
        the message then has that length, and its digest covers what a receiver verifies. */
    method Build(buf: array<octet>, sequence: nat) returns (err: Error)
      requires Valid() && sequence < 0x1_0000 && DigestSized(lib)
      modifies this`msgLen, buf
      ensures err == OK <==> CanBuild(sequence, buf.Length)
      ensures err == OK ==> IsBuilt(buf[..], sequence) && msgLen % 2 == 0
      ensures err != OK ==> msgLen == old(msgLen)
      ensures err == VAL ==> !SendingFits(Sends())
      ensures err == AUTH ==> PlannedLen() <= buf.Length
      ensures err == OK || err == TOO_SMALL || err == VAL || err == AUTH
    {
      hide Line, Agrees, VariableLayout, AuthOk, SaOk, SendingOk, Payload, PlannedLength, SendingFits, ParamsOk;
      hide HeadStart, HeadEnd, IdValue, CoveredOf, Digested, BigEndian, Zeros, Wrote, DigestSized, IsBuilt, Blank, SignerSize, SignerNow, PlannedLen;
      ghost var fits := SendingFits(Sends());
      if fits { PlanEven(); }
      err := TOO_SMALL;
      if buf.Length >= MNG_BASE_SIZE {
        WriteFront(buf, sequence);
        ghost var b0 := buf[..];
        var n;
        err, n := BuildData(buf);
        if err == OK {
          Appended(b0, Payload(Sends(), prms.useZeroGet), buf[..], Blank(sequence));
          err := if (MNG_BASE_SIZE + n) % 2 == 1 then SIZE else OK;
          if err == OK { err := Finish(buf, sequence, n); }
        }
      }
    }

    lemma PlanEven()
      requires Valid() && SendingFits(Sends())
      ensures PlannedLen() == MNG_BASE_SIZE + |Payload(Sends(), prms.useZeroGet)| + SignerSize(SignerNow())
      ensures |Payload(Sends(), prms.useZeroGet)| % 2 == 0 && PlannedLen() % 2 == 0
    {
      hide Line, Agrees, VariableLayout, SaOk, AuthOk, SendingOk, Payload, PlannedLength, SendingFits;
      PlannedLengthAgrees(Sends(), prms.useZeroGet, SignerSize(SignerNow()));
      if Signing() { MacSizeBounds(AuthNow()); }
    }

    /** What was built and signed is accepted: `parseAuth`, pointed behind the dataField,
        verifies exactly the octets that were digested. */
    lemma BuiltVerifies(b: seq<octet>, sequence: nat)
      requires Valid() && DigestSized(lib) && Trusted(lib) && Signing()
      requires CanBuild(sequence, |b|) && IsBuilt(b, sequence)
      ensures var end := MNG_BASE_SIZE + |Payload(Sends(), prms.useZeroGet)|;
        && end + AUTH_TLV_SIZE <= msgLen
        && ParseAuth(AuthNow(), lib, b[..msgLen], end, msgLen - end, true) == OK
    {
      hide Line, Agrees, VariableLayout, SendingOk, Payload, PlannedLength, SendingFits, Front, AuthHead, ParseAuth, AuthOk;
      PlanEven();
      MacSizeBounds(AuthNow());
      var m := Outgoing(sequence);
      var icv := Digested(m, hmac, lib).value;
      var front := Front(m.prms, ActionCode(m.action), sequence, m.id, FrameSize(m.data, m.signer), |m.data|) + m.data;
      assert CoveredOf(m) == front + AuthHead(m.signer.spp, m.signer.key, m.signer.macSize);
      SignedAccepted(AuthNow(), lib, front, icv, []);
      assert CoveredOf(m) + icv + [] == CoveredOf(m) + icv;
    }

    /** The length in the header of what was built is right if and only if it fits 16 bits. */
    lemma BuiltLength(b: seq<octet>, sequence: nat)
      requires Valid() && CanBuild(sequence, |b|) && IsBuilt(b, sequence)
      ensures MNG_BASE_SIZE <= msgLen <= |b| && (Read16(b, 2) == msgLen <==> msgLen < 0x1_0000)
    {
      hide Line, Agrees, VariableLayout, SendingOk, Payload, PlannedLength, SendingFits, Front, AuthHead, AuthOk, Read16;
      PlanEven();
      var m := Outgoing(sequence);
      var front := Front(m.prms, ActionCode(m.action), sequence, m.id, msgLen, |m.data|);
      FrontLengths(m.prms, ActionCode(m.action), sequence, m.id, msgLen, |m.data|);
      assert b[..msgLen][..MNG_BASE_SIZE] == front;
      assert b[0..MNG_BASE_SIZE] == front;
      ReadShift(b, 0, front, 2);
    }

    /** The octets in front of the dataField, with both lengths still zero. */
    function Blank(sequence: nat): (b: seq<octet>)
      requires ParamsOk(prms)
      reads this`prms, this`sendAction, this`tlvId
      ensures |b| == MNG_BASE_SIZE
    {
      HeadStart(prms) + Zeros(2) + (HeadEnd(prms, ActionCode(sendAction), sequence) + BigEndian(MANAGEMENT, 2))
      + Zeros(2) + BigEndian(IdValue(tlvId), 2)
    }

    method WriteFront(buf: array<octet>, sequence: nat)
      requires ParamsOk(prms) && buf.Length >= MNG_BASE_SIZE
      modifies buf
      ensures buf[..MNG_BASE_SIZE] == Blank(sequence)
    {
      ghost var before := buf[..];
      Store(buf, 0, Blank(sequence));
      StoredFirst(before, Blank(sequence), buf[..]);
    }

    /** The lengths, and the AUTHENTICATION TLV if one is sent. */
    method Finish(buf: array<octet>, sequence: nat, n: nat) returns (err: Error)
      requires Valid() && DigestSized(lib) && SendingFits(Sends())
      requires n == |Payload(Sends(), prms.useZeroGet)| && MNG_BASE_SIZE + n <= buf.Length
      requires PlannedLen() == MNG_BASE_SIZE + n + SignerSize(SignerNow())
      requires buf[..MNG_BASE_SIZE + n] == Blank(sequence) + Payload(Sends(), prms.useZeroGet)
      modifies this`msgLen, buf
      ensures err == OK <==> CanBuild(sequence, buf.Length)
      ensures err == OK ==> IsBuilt(buf[..], sequence) && msgLen == PlannedLen()
      ensures err != OK ==> msgLen == old(msgLen)
      ensures err == OK || err == TOO_SMALL || (err == AUTH && PlannedLen() <= buf.Length)
    {
      hide Line, Agrees, VariableLayout, AuthOk, SaOk, SendingOk, Payload, PlannedLength, SendingFits, ParamsOk;
      hide HeadStart, HeadEnd, IdValue, BigEndian, Zeros, Wrote, CoveredOf;
      ghost var m := Outgoing(sequence);
      var len := BigEndian((2 + n) % 0x1_0000, 2);
      ghost var b0 := buf[..];
      Store(buf, 50, len);
      LengthFilled(b0, buf[..], HeadStart(prms), HeadEnd(prms, ActionCode(sendAction), sequence) + BigEndian(MANAGEMENT, 2),
                   len, BigEndian(IdValue(tlvId), 2), m.data);
      if Signing() {
        err := Sign(buf, n, m);
      } else {
        Seal(buf, n, m);
        err := OK;
      }
    }

    /** A message without AUTHENTICATION TLV. */
    method Seal(buf: array<octet>, n: nat, ghost m: Sent)
      requires ParamsOk(m.prms) && n == |m.data| && m.signer.Unsigned? && MNG_BASE_SIZE + n <= buf.Length
      requires buf[..MNG_BASE_SIZE + n] == Unfilled(m)
      modifies this`msgLen, buf
      ensures msgLen == MNG_BASE_SIZE + n && buf[..msgLen] == CoveredOf(m) + []
    {
      hide Wrote, CoveredOf;
      var total := MNG_BASE_SIZE + n;
      ghost var b1 := buf[..];
      Store(buf, 2, BigEndian(total % 0x1_0000, 2));
      TotalFilled(b1, buf[..], m, []);
      assert CoveredOf(m) + [] == CoveredOf(m);
      msgLen := total;
    }

    /** The AUTHENTICATION TLV: its ICV is the digest of all octets in front of it, with the
        length of the whole message filled in. */
    method Sign(buf: array<octet>, n: nat, ghost m: Sent) returns (err: Error)
      requires AuthOk(AuthNow()) && DigestSized(lib) && ParamsOk(m.prms) && n == |m.data| && MNG_BASE_SIZE + n <= buf.Length
      requires Signing() && m.signer == SignerNow() && buf[..MNG_BASE_SIZE + n] == Unfilled(m)
      modifies this`msgLen, buf
      ensures err == OK <==> FrameSize(m.data, m.signer) <= buf.Length && Digested(m, hmac, lib).Some?
      ensures err == OK ==> msgLen == FrameSize(m.data, m.signer) && buf[..msgLen] == CoveredOf(m) + Digested(m, hmac, lib).value
      ensures err != OK ==> msgLen == old(msgLen)
      ensures err == OK || err == TOO_SMALL || (err == AUTH && FrameSize(m.data, m.signer) <= buf.Length)
    {
      hide AuthOk, Wrote, AuthHead, Unfilled, CoveredOf;
      var macSize := MacSize(sa, sppId, keyId);
      if AUTH_TLV_SIZE + macSize > buf.Length - MNG_BASE_SIZE - n { return TOO_SMALL; }
      MacSizeBounds(AuthNow());
      var head, total := AuthHead(sppId, keyId, macSize), MNG_BASE_SIZE + n + AUTH_TLV_SIZE + macSize;
      ghost var b1 := buf[..];
      UnfilledSize(m);
      Store(buf, MNG_BASE_SIZE + n, head);
      Appended(b1, head, buf[..], Unfilled(m));
      ghost var b2 := buf[..];
      Store(buf, 2, BigEndian(total % 0x1_0000, 2));
      TotalFilled(b2, buf[..], m, head);
      ghost var b3 := buf[..];
      var icv := lib.digest(hmac, buf[..total - macSize], macSize);
      if icv.None? { return AUTH; }
      Store(buf, total - macSize, icv.value);
      Appended(b3, icv.value, buf[..], CoveredOf(m));
      msgLen := total;
      err := OK;
    }

    function Environment(): Env
      reads this`prms, this`haveAuth, this`sa, this`sppId, this`keyId, this`hmac
    {
      Env(prms, AuthNow(), lib)
    }

    /** The walk over the TLVs of a signalling message of `size` octets. */
    method ParseSig(buf: array<octet>, size: nat) returns (err: Error, found: seq<(nat, SigTlv)>)
      requires size <= buf.Length && SIG_BASE_SIZE <= buf.Length
      modifies buf
      ensures buf[..] == old(buf[..])
      ensures var b := buf[..size]; Walked(err, found) == SigRun(Environment(), b, SigStart(b))
    {
      hide SigStep, SigRun, SigEnd;
      var b, e := buf[..size], Environment();
      var w := SigStart(b);
      ghost var run := SigRun(e, b, w);
      while w.left >= 4
        invariant buf[..] == old(buf[..]) && Inside(b, w) && w.authAt + w.authLen <= |b|
        invariant SigRun(e, b, w) == run
        decreases w.left
      {
        SigRunStep(e, b, w);
        SigStepAuth(e, b, w);
        var next := SigRound(buf, b, e, w);
        if next.Stop? { return next.err, w.found; }
        w := next.w;
      }
      SigRunEnd(e, b, w);
      err, found := SigEnd(e, b, w), w.found;
    }

    /** `parse`: a message of at most `bufSize` octets. */
    method Parse(buf: array<octet>, bufSize: nat) returns (err: Error)
      requires bufSize <= buf.Length
      modifies this`reply, buf
      ensures buf[..] == old(buf[..])
      ensures Received(err, reply) == Receive(Environment(), old(reply), buf[..bufSize])
    {
      hide ReceiveMng, SigRun, ReadHeader, Read16;
      var b := buf[..bufSize];
      if bufSize < SIG_BASE_SIZE { return TOO_SMALL; }
      var size := Read16(b, 2);
      if size > bufSize { return HEADER; }
      var kind := b[0] % 16;
      reply := reply.(msgType := kind);
      if kind == SIGNALING_TYPE {
        if !prms.rcvSignaling { return HEADER; }
      } else if kind == MANAGEMENT_TYPE {
        if size < MNG_MIN_SIZE { return TOO_SMALL; }
      } else {
        return HEADER;
      }
      reply := reply.(version := b[1] % 16, minorVersion := b[1] / 16);
      if reply.version != 2 || b[33] != 0x7f { return HEADER; }
      reply := ReadHeader(reply, b);
      if kind == SIGNALING_TYPE {
        var found;
        PrefixSlice(buf[..], bufSize, 0, size);
        err, found := ParseSig(buf, size);
        reply := reply.(sigs := found, lastSig := true);
      } else {
        reply := reply.(lastSig := false);
        err := ParseMng(buf, b, size);
      }
    }

    /** The checks in front of the TLV of a management message. */
    method MngTlv(b: seq<octet>, size: nat) returns (step: MngStep)
      requires MNG_MIN_SIZE <= size <= |b|
      ensures step == MngTlvOf(Environment(), b, size)
    {
      hide ParseAuth, Read16, AuthManagement, AuthIgnore;
      var action := b[46] % 16;
      if action != ActionCode(RESPONSE) && action != ActionCode(ACKNOWLEDGE) && action != ActionCode(COMMAND) {
        return Refuse(ACTION, false);
      }
      var len := Read16(b, 50);
      var end := MNG_MIN_SIZE + len;
      if end > size || len % 2 == 1 { return Refuse(TOO_SMALL, true); }
      var errAuth := OK;
      if haveAuth && AuthManagement(prms) {
        errAuth := ParseAuth(AuthNow(), lib, b, end, size - end, true);
        if errAuth != OK && !AuthIgnore(prms) { return Refuse(errAuth, true); }
      }
      step := Deliver(action, b[MNG_MIN_SIZE..end], errAuth);
    }

    /** The management part, on a buffer that starts with the octets `b`. */
    method ParseMng(buf: array<octet>, b: seq<octet>, size: nat) returns (err: Error)
      requires MNG_MIN_SIZE <= size <= |b| <= buf.Length && b == buf[..|b|]
      modifies this`reply, buf
      ensures buf[..] == old(buf[..])
      ensures Received(err, reply) == ReceiveMng(Environment(), old(reply), b, size)
    {
      hide ReceiveError, ReceiveManagement, ReceiveSmpte, MngTlvOf, Read16;
      MngTlvInside(Environment(), b, size);
      var step := MngTlv(b, size);
      var tlvType := Read16(b, 48);
      if step.Refuse? {
        if step.known { reply := reply.(mngType := tlvType); }
        return step.err;
      }
      reply := reply.(mngType := tlvType);
      var action, errAuth := step.action, step.errAuth;
      PrefixSlice(buf[..], |b|, MNG_MIN_SIZE, MNG_MIN_SIZE + |step.body|);
      var mp := new MsgProc(false, buf, MNG_MIN_SIZE, |step.body|);
      assert mp.Ahead() == step.body;
      if tlvType == MANAGEMENT_ERROR_STATUS {
        err, reply := ReadErrorReply(mp, Environment(), reply, action, errAuth);
      } else if tlvType == MANAGEMENT {
        err, reply := ReadReply(mp, Environment(), reply, action, errAuth);
      } else if tlvType == ORGANIZATION_EXTENSION {
        err, reply := ReadSmpte(mp, Environment(), reply, action, errAuth);
      } else {
        err := INVALID_TLV;
      }
    }
  }

  /** The octets up to the end of the dataField before the message length is known. */
  function Unfilled(m: Sent): seq<octet>
    requires ParamsOk(m.prms)
  {
    HeadStart(m.prms) + Zeros(2) + Filled(m)
  }

  function Filled(m: Sent): (b: seq<octet>)
    requires ParamsOk(m.prms)
    ensures |b| == 50 + |m.data|
  {
    HeadEnd(m.prms, ActionCode(m.action), m.sequence) + BigEndian(MANAGEMENT, 2)
    + BigEndian((2 + |m.data|) % 0x1_0000, 2) + BigEndian(IdValue(m.id), 2) + m.data
  }

  lemma UnfilledSize(m: Sent)
    requires ParamsOk(m.prms)
    ensures |Unfilled(m)| == MNG_BASE_SIZE + |m.data|
  {
  }

  /** The length of the message is filled in. */
  lemma TotalFilled(b1: seq<octet>, b2: seq<octet>, m: Sent, auth: seq<octet>)
    requires ParamsOk(m.prms) && auth == (if m.signer.Unsigned? then [] else AuthHead(m.signer.spp, m.signer.key, m.signer.macSize))
    requires |b1| >= MNG_BASE_SIZE + |m.data + auth| && b1[..MNG_BASE_SIZE + |m.data + auth|] == Unfilled(m) + auth
    requires Wrote(b1, 2, BigEndian(FrameSize(m.data, m.signer) % 0x1_0000, 2), b2)
    ensures |CoveredOf(m)| == MNG_BASE_SIZE + |m.data + auth| && b2[..|CoveredOf(m)|] == CoveredOf(m)
  {
    hide HeadStart, HeadEnd, IdValue, BigEndian, AuthHead, Wrote, Zeros;
    var start, total, zeros := HeadStart(m.prms), BigEndian(FrameSize(m.data, m.signer) % 0x1_0000, 2), Zeros(2);
    var middle := HeadEnd(m.prms, ActionCode(m.action), m.sequence) + BigEndian(MANAGEMENT, 2);
    var len, id := BigEndian((2 + |m.data|) % 0x1_0000, 2), BigEndian(IdValue(m.id), 2);
    CoveredParts(start, zeros, middle, len, id, m.data, auth);
    Patched(b1, 2, total, b2, start, zeros, middle + len + id + m.data + auth);
    CoveredParts(start, total, middle, len, id, m.data, auth);
  }

  /** The length of the TLV is filled in. */
  lemma LengthFilled(b0: seq<octet>, b1: seq<octet>, start: seq<octet>, middle: seq<octet>,
                     len: seq<octet>, id: seq<octet>, data: seq<octet>)
    requires |start| == |len| == |id| == 2 && |middle| == 46 && |b0| >= 54 + |data| && Wrote(b0, 50, len, b1)
    requires b0[..54 + |data|] == start + Zeros(2) + middle + Zeros(2) + id + data
    ensures b1[..54 + |data|] == start + Zeros(2) + (middle + len + id + data)
  {
    var zeros := Zeros(2);
    assert start + zeros + middle + zeros + id + data == (start + zeros + middle) + zeros + (id + data);
    Patched(b0, 50, len, b1, start + zeros + middle, zeros, id + data);
    assert (start + zeros + middle) + len + (id + data) == start + zeros + (middle + len + id + data);
  }

  lemma CoveredParts(start: seq<octet>, total: seq<octet>, middle: seq<octet>, len: seq<octet>,
                     id: seq<octet>, data: seq<octet>, auth: seq<octet>)
    ensures start + total + (middle + len + id + data) + auth == start + total + (middle + len + id + data + auth)
    ensures start + total + (middle + len + id + data + auth) == (start + total + middle + len + id) + data + auth
  {
  }

  lemma WroteNothing(b: seq<octet>, at: nat)
    requires at <= |b|
    ensures Wrote(b, at, [], b)
  {
    assert b == b[..at] + [] + b[at..];
  }

  lemma SigRunStep(e: Env, b: seq<octet>, w: Walk)
    requires Inside(b, w) && w.authAt + w.authLen <= |b| && w.left >= 4
    ensures var r := SigStep(e, b, w);
      SigRun(e, b, w) == if r.Stop? then Walked(r.err, w.found) else SigRun(e, b, r.w)
  {
  }

  lemma SigRunEnd(e: Env, b: seq<octet>, w: Walk)
    requires Inside(b, w) && w.authAt + w.authLen <= |b| && w.left < 4
    ensures SigRun(e, b, w) == Walked(SigEnd(e, b, w), w.found)
  {
  }

  lemma SigStepAuth(e: Env, b: seq<octet>, w: Walk)
    requires Inside(b, w) && w.authAt + w.authLen <= |b| && w.left >= 4
    ensures var r := SigStep(e, b, w); r.Go? ==> r.w.authAt + r.w.authLen <= |b|
  {
    hide Handle, ParseAuth, Read16;
  }

  lemma MngTlvInside(e: Env, b: seq<octet>, size: nat)
    requires MNG_MIN_SIZE <= size <= |b|
    ensures var step := MngTlvOf(e, b, size);
      step.Deliver? ==> MNG_MIN_SIZE + |step.body| <= size && step.body == b[MNG_MIN_SIZE..MNG_MIN_SIZE + |step.body|]
  {
    hide ParseAuth, Read16, AuthManagement, AuthIgnore;
  }
}
