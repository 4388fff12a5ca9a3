/**
 What authentication gives a receiver of management messages: without a check that
 succeeds nothing is taken for good.
 */
module Authenticated {
  import opened Octets
  import opened TlvCodec
  import opened SecurityAssociation
  import opened Framing
  import opened Signalling
  import opened Receiving

  /** Behind the management TLV is an AUTHENTICATION TLV, inside the message, whose ICV is right
      for the octets in front of it under the key that it names. */
  predicate Genuine(e: Env, b: seq<octet>) {
    && |b| >= 52
    && var size, end := Read16(b, 2), 52 + Read16(b, 50);
       && end + 10 <= size <= |b| && Read16(b, end) == 0x8009
       && var len := Read16(b, end + 2) + 4;
          10 <= len && end + len <= size && Authentic(e.auth, e.mac, b, end, len)
  }

  /** The receiver can check with that key: it is the selected one, or can be made. */
  predicate Checkable(e: Env, b: seq<octet>) {
    Genuine(e, b) ==>
      var end := 52 + Read16(b, 50);
      var spp, key := b[end + 4], FromBigEndian(b[end + 6..end + 10]);
      (spp == e.auth.spp && key == e.auth.key) || e.mac.alloc(KeyOf(e.auth.sa, spp, key))
  }

  predicate Good(err: Error) { err == OK || err == MSG || err == SMPTE }

  predicate AuthError(err: Error) { err == AUTH || err == AUTH_NONE || err == AUTH_WRONG || err == AUTH_NOKEY }

  /** The receiver does not check. */
  function Unchecked(e: Env): Env { e.(auth := e.auth.(on := false)) }

  /** The members that a TLV brings are those from before. */
  predicate Untouched(r: Reply, s: Reply) {
    s.action == r.action && s.id == r.id && s.data == r.data && s.errorId == r.errorId && s.display == r.display && s.sigs == r.sigs
  }

  lemma CheckedTlv(e: Env, b: seq<octet>, size: nat)
    requires MNG_MIN_SIZE <= size <= |b| && size == Read16(b, 2) && AuthOk(e.auth) && e.auth.on
    requires MngTlvOf(Unchecked(e), b, size).Deliver?
    ensures var end := 52 + Read16(b, 50);
      end <= size && (ParseAuth(e.auth, e.mac, b, end, size - end, true) == OK <==> Genuine(e, b) && Checkable(e, b))
  {
    hide Read16, ParseAuth, Authentic, SaOk, AuthManagement, AuthIgnore, FromBigEndian;
    var end := 52 + Read16(b, 50);
    if size - end >= AUTH_TLV_SIZE && Read16(b, end) == AUTHENTICATION {
      AuthExactly(e.auth, e.mac, b, end, size - end, true);
    } else {
      TooShort(e.auth, e.mac, b, end, size - end);
    }
  }

  lemma TooShort(a: Auth, mac: Mac, b: seq<octet>, at: nat, left: nat)
    requires at + left <= |b| && (left < AUTH_TLV_SIZE || Read16(b, at) != AUTHENTICATION)
    ensures ParseAuth(a, mac, b, at, left, true) == AUTH_NONE
  {
  }

  /** The step in front of the TLV, against that of a receiver that does not check. */
  lemma StepCompared(e: Env, b: seq<octet>, size: nat)
    requires MNG_MIN_SIZE <= size <= |b| && size == Read16(b, 2) && AuthOk(e.auth) && e.auth.on
    ensures var s, t, p := MngTlvOf(e, b, size), MngTlvOf(Unchecked(e), b, size), e.prms.rcvAuth;
      && (t.Deliver? ==> t.errAuth == OK)
      && (t.Refuse? ==> s == t && !AuthError(t.err) && !Good(t.err))
      && (p % 2 == 0 || (Genuine(e, b) && Checkable(e, b)) ==> s == t)
      && (t.Deliver? && p % 2 == 1 && !(Genuine(e, b) && Checkable(e, b)) ==>
           if p / 8 % 2 == 0 then s.Refuse? && AuthError(s.err)
           else s.Deliver? && s == t.(errAuth := s.errAuth) && AuthError(s.errAuth))
  {
    hide Read16, ParseAuth, Genuine, Checkable, AuthOk;
    if MngTlvOf(Unchecked(e), b, size).Deliver? { CheckedTlv(e, b, size); }
  }

  /** The same members, and an error in place of a good end. */
  predicate Worse(plain: Received, out: Received, err: Error) {
    out.reply == plain.reply && out.err == if Good(plain.err) then err else plain.err
  }

  /** What the TLV brings does not depend on the check, but a good end does. */
  lemma ErrorCompared(e: Env, r: Reply, action: nat, body: seq<octet>, err: Error)
    requires err == OK || AuthError(err)
    ensures var plain, out := ReceiveError(Unchecked(e), r, action, body, OK), ReceiveError(e, r, action, body, err);
      if err == OK then out == plain else Worse(plain, out, err)
  {
    hide Read16, FindTlvId, MayReply, Parse;
  }

  lemma ReplyCompared(e: Env, r: Reply, action: nat, body: seq<octet>, err: Error)
    requires err == OK || AuthError(err)
    ensures var plain, out := ReceiveManagement(Unchecked(e), r, action, body, OK), ReceiveManagement(e, r, action, body, err);
      if err == OK then out == plain else Worse(plain, out, err)
  {
    hide Read16, FindTlvId, MayReply, ReadTlv;
  }

  lemma SmpteCompared(e: Env, r: Reply, action: nat, body: seq<octet>, err: Error)
    requires err == OK || AuthError(err)
    ensures var plain, out := ReceiveSmpte(Unchecked(e), r, action, body, OK), ReceiveSmpte(e, r, action, body, err);
      if err == OK then out == plain else Worse(plain, out, err)
  {
    hide ChainParse, SmpteRest;
  }

  lemma MngCompared(e: Env, r: Reply, b: seq<octet>, size: nat)
    requires MNG_MIN_SIZE <= size <= |b| && size == Read16(b, 2) && AuthOk(e.auth) && e.auth.on
    ensures var out, plain, p := ReceiveMng(e, r, b, size), ReceiveMng(Unchecked(e), r, b, size), e.prms.rcvAuth;
      && (p % 2 == 0 || (Genuine(e, b) && Checkable(e, b)) ==> out == plain)
      && (p % 2 == 1 && !(Genuine(e, b) && Checkable(e, b)) ==>
           if p / 8 % 2 == 0 then !Good(out.err) && Untouched(r, out.reply)
           else (exists err :: AuthError(err) && Worse(plain, out, err)) && !Good(out.err))
  {
    hide Read16, Genuine, Checkable, AuthOk, MngTlvOf, ReceiveError, ReceiveManagement, ReceiveSmpte;
    StepCompared(e, b, size);
    var s, t := MngTlvOf(e, b, size), MngTlvOf(Unchecked(e), b, size);
    var plain, out := ReceiveMng(Unchecked(e), r, b, size), ReceiveMng(e, r, b, size);
    if t.Deliver? && s.Deliver? {
      var r1 := r.(mngType := Read16(b, 48));
      ErrorCompared(e, r1, t.action, t.body, s.errAuth);
      ReplyCompared(e, r1, t.action, t.body, s.errAuth);
      SmpteCompared(e, r1, t.action, t.body, s.errAuth);
      if AuthError(s.errAuth) { assert Worse(plain, out, s.errAuth); }
    } else if t.Refuse? {
      assert Worse(plain, out, AUTH);
    }
  }

  /** Up to the TLV the check plays no part. */
  lemma HeadCompared(e: Env, r: Reply, b: seq<octet>)
    requires b != [] && b[0] % 16 == 0xd
    ensures var out, plain := Receive(e, r, b), Receive(Unchecked(e), r, b);
      || (out == plain && !Good(out.err) && !AuthError(out.err) && Untouched(r, out.reply))
      || (&& |b| >= 52 && MNG_MIN_SIZE <= Read16(b, 2) <= |b|
          && exists h :: Untouched(r, h) && out == ReceiveMng(e, h, b, Read16(b, 2)) && plain == ReceiveMng(Unchecked(e), h, b, Read16(b, 2)))
  {
    hide Read16, ReceiveMng, ReceiveSig, BitAnd;
    var size := if |b| >= 44 then Read16(b, 2) else 0;
    if 52 <= size <= |b| && b[1] % 16 == 2 && b[33] == 0x7f {
      var h := ReadHeader(r.(msgType := 0xd, version := 2, minorVersion := b[1] / 16), b).(lastSig := false);
      assert Untouched(r, h);
      assert Receive(e, r, b) == ReceiveMng(e, h, b, size);
    }
  }

  /** A management message under a check. If it is not asked for, or succeeds, nothing changes.
      Otherwise no message ends well; its TLV is taken only if errors are to be ignored (bit 3),
      as without the check, and the error is then that of the check unless the TLV has one. */
  lemma CheckedReceive(e: Env, r: Reply, b: seq<octet>)
    requires b != [] && b[0] % 16 == 0xd && AuthOk(e.auth) && e.auth.on
    ensures var out, plain, p := Receive(e, r, b), Receive(Unchecked(e), r, b), e.prms.rcvAuth;
      && (p % 2 == 0 || (Genuine(e, b) && Checkable(e, b)) ==> out == plain)
      && (p % 2 == 1 && !(Genuine(e, b) && Checkable(e, b)) ==> !Good(out.err))
      && (p % 2 == 1 && !(Genuine(e, b) && Checkable(e, b)) && p / 8 % 2 == 0 ==> Untouched(r, out.reply))
      && (p % 2 == 1 && !(Genuine(e, b) && Checkable(e, b)) && p / 8 % 2 == 1 ==>
           exists err :: AuthError(err) && Worse(plain, out, err))
  {
    hide Read16, Genuine, Checkable, AuthOk, Receive, ReceiveMng;
    HeadCompared(e, r, b);
    var out, plain := Receive(e, r, b), Receive(Unchecked(e), r, b);
    if out == plain && !Good(out.err) && Untouched(r, out.reply) {
      assert AuthError(AUTH) && Worse(plain, out, AUTH);
    } else {
      var h :| Untouched(r, h) && out == ReceiveMng(e, h, b, Read16(b, 2)) && plain == ReceiveMng(Unchecked(e), h, b, Read16(b, 2));
      MngCompared(e, h, b, Read16(b, 2));
    }
  }

  /** Whatever is received: a good end, or a change of what is stored, comes from a message
      that is authentic, if the check is asked for and errors are not ignored. */
  lemma OnlyGenuine(e: Env, r: Reply, b: seq<octet>)
    requires b != [] && b[0] % 16 == 0xd && AuthOk(e.auth) && e.auth.on
    requires e.prms.rcvAuth % 2 == 1 && e.prms.rcvAuth / 8 % 2 == 0
    ensures var out := Receive(e, r, b);
      out.err == OK || out.err == MSG || out.err == SMPTE || !Untouched(r, out.reply) ==> Genuine(e, b) && Checkable(e, b)
  {
    hide Receive, Genuine, Checkable, AuthOk, Untouched;
    CheckedReceive(e, r, b);
  }

  /** A message that ends well is authentic also where errors are ignored. */
  lemma GoodIsGenuine(e: Env, r: Reply, b: seq<octet>)
    requires b != [] && b[0] % 16 == 0xd && AuthOk(e.auth) && e.auth.on && e.prms.rcvAuth % 2 == 1
    ensures var out := Receive(e, r, b); out.err == OK || out.err == MSG || out.err == SMPTE ==> Genuine(e, b)
  {
    hide Receive, Genuine, Checkable, AuthOk, Untouched;
    CheckedReceive(e, r, b);
  }

  // ---------------------------------------------------------------- signalling messages

  /** What the walk knows of the last AUTHENTICATION TLV. */
  predicate Traced(e: Env, b: seq<octet>, w: Walk) {
    && Inside(b, w) && w.authAt + w.authLen <= |b|
    && (w.last == AUTHENTICATION ==>
         && w.authLen >= 4 && w.authAt >= 44 && Read16(b, w.authAt) == 0x8009
         && (e.prms.rcvAuth / 4 % 2 == 1 ==> w.errAuth == ParseAuth(e.auth, e.mac, b, w.authAt, w.authLen, false)))
  }

  lemma StepTraced(e: Env, b: seq<octet>, w: Walk)
    requires Traced(e, b, w) && w.left >= 4 && w.cur >= 44 && e.auth.on
    ensures var r := SigStep(e, b, w); r.Go? ==> Traced(e, b, r.w) && r.w.cur >= 44
    ensures var r := SigStep(e, b, w); r.Stop? ==> r.err != SIG
  {
    hide Handle, ParseAuth, Read16;
  }

  lemma {:induction false} RunTraced(e: Env, b: seq<octet>, w: Walk) returns (at: nat, len: nat)
    requires Traced(e, b, w) && w.cur >= 44 && e.auth.on && SigRun(e, b, w).err == SIG
    requires e.prms.rcvAuth / 2 % 2 == 1 || e.prms.rcvAuth / 4 % 2 == 1
    ensures 44 <= at && 4 <= len && at + len <= |b| && Read16(b, at) == 0x8009
    ensures ParseAuth(e.auth, e.mac, b, at, len, false) == OK
    decreases w.left
  {
    hide SigStep, ParseAuth, Read16;
    if w.left < 4 {
      at, len := w.authAt, w.authLen;
    } else {
      StepTraced(e, b, w);
      at, len := RunTraced(e, b, SigStep(e, b, w).w);
    }
  }

  /** A signalling message that is accepted has an AUTHENTICATION TLV whose ICV is right, if the
      check of the last (bit 1) or of all (bit 2) is asked for. */
  lemma SignallingGenuine(e: Env, r: Reply, b: seq<octet>) returns (at: nat, len: nat)
    requires b != [] && b[0] % 16 == 0xc && AuthOk(e.auth) && e.auth.on && Receive(e, r, b).err == SIG
    requires e.prms.rcvAuth / 2 % 2 == 1 || e.prms.rcvAuth / 4 % 2 == 1
    ensures e.prms.rcvSignaling && |b| >= 44
    ensures 44 <= at && 10 <= len && at + len <= Read16(b, 2) <= |b|
    ensures var c := b[..Read16(b, 2)]; Read16(c, at) == 0x8009 && Authentic(e.auth, e.mac, c, at, len)
  {
    hide Read16, SigRun, ParseAuth, ReadHeader, ReceiveMng, AuthOk, Authentic;
    var c := b[..Read16(b, 2)];
    at, len := RunTraced(e, c, SigStart(c));
    assert len >= AUTH_TLV_SIZE by { ShortRefused(e.auth, e.mac, c, at, len); }
    AuthExactly(e.auth, e.mac, c, at, len, false);
  }

  lemma ShortRefused(a: Auth, mac: Mac, b: seq<octet>, at: nat, left: nat)
    requires at + left <= |b| && ParseAuth(a, mac, b, at, left, false) == OK
    ensures left >= AUTH_TLV_SIZE
  {
  }
}
