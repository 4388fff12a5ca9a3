/**
 The methods that build and parse one TLV of a message in place, by its type.
 */
module TlvHandling {
  import opened Octets
  import opened TlvLayout
  import opened TlvCodec
  import opened TlvSizes
  import opened MessageProcessor
  import opened SecurityAssociation
  import opened Framing
  import opened Signalling
  import opened Receiving

  /** `call_tlv_data` on build: the structure has to be the one of the identifier. */
  method BuildTlv(mp: MsgProc, id: MngId, tlv: Tlv) returns (err: Error)
    requires mp.Valid() && mp.build && (tlv.id == id ==> ChainTyped(Layout(id), tlv.slots))
    modifies mp, mp.buf
    ensures mp.Valid() && mp.build && mp.buf == old(mp.buf)
    ensures HasData(id) && tlv.id != id ==> err == MISMATCH_TLV
    ensures !HasData(id) ==> err == OK && mp.Moved(0) && mp.buf[..] == old(mp.buf[..])
    ensures HasData(id) && tlv.id == id ==>
      var fits := ChainFits(Layout(id), tlv.slots);
      var bs := if fits then ChainEnc(Layout(id), tlv.slots) else [];
      && Outcome(old(mp.buf[..]), old(mp.cur), old(mp.left), err != OK, fits, bs, mp.buf[..])
      && (err == OK ==> mp.Moved(|bs|))
      && (err != OK ==> err == TOO_SMALL || (err == VAL && !fits))
  {
    hide Line, ChainFits, ChainEnc, ChainTyped, Outcome, WellFormed, ChainSize, FixedChain, VariableLayout;
    mp.err := TOO_SMALL;
    if !HasData(id) { return OK; }
    if tlv.id != id { return MISMATCH_TLV; }
    var failed, ss := mp.ProcChain(Layout(id), tlv.slots);
    err := if failed then mp.err else OK;
  }

  /** `call_tlv_data` on parse. */
  method ParseTlv(mp: MsgProc, id: MngId) returns (err: Error, tlv: Option<Tlv>)
    requires mp.Valid() && !mp.build
    modifies mp, mp.buf
    ensures mp.Valid() && !mp.build && mp.buf == old(mp.buf) && mp.buf[..] == old(mp.buf[..])
    ensures var r := old(ReadTlv(id, mp.Ahead()));
      if r.Fail? then err == r.err else err == OK && tlv == r.val && mp.Moved(r.used) && mp.err == TOO_SMALL
  {
    hide Line, ChainParse, WellFormed, ChainSize, FixedChain, VariableLayout;
    ghost var r := ReadTlv(id, mp.Ahead());
    mp.err := TOO_SMALL;
    if !HasData(id) { return OK, None; }
    var failed, ss := mp.ProcChain(Layout(id), []);
    assert failed == r.Fail?;
    err := if failed then mp.err else OK;
    tlv := if failed then None else Some(Tlv(id, ss));
  }

  lemma PaddedWrote(b0: seq<octet>, at: nat, bs: seq<octet>, b1: seq<octet>, b2: seq<octet>)
    requires Wrote(b0, at, bs, b1)
    requires if |bs| % 2 == 1 then Wrote(b1, at + |bs|, [0], b2) else b2 == b1
    ensures Wrote(b0, at, Padded(bs), b2)
  {
    if |bs| % 2 == 1 { WroteTwice(b0, at, bs, b1, [0], b2); }
  }

  /** The dataField of the data at hand, with its pad octet. */
  method BuildPadded(mp: MsgProc, id: MngId, tlv: Tlv) returns (err: Error)
    requires mp.Valid() && mp.build && mp.size == 0 && HasData(id) && tlv.id == id && ChainTyped(Layout(id), tlv.slots)
    modifies mp, mp.buf
    ensures mp.Valid() && mp.buf == old(mp.buf)
    ensures var fits := ChainFits(Layout(id), tlv.slots);
      err == OK <==> fits && |Padded(ChainEnc(Layout(id), tlv.slots))| <= old(mp.left)
    ensures err == OK ==>
      var bs := Padded(ChainEnc(Layout(id), tlv.slots));
      mp.Moved(|bs|) && Wrote(old(mp.buf[..]), old(mp.cur), bs, mp.buf[..])
    ensures err != OK ==> err == TOO_SMALL || (err == VAL && !ChainFits(Layout(id), tlv.slots))
  {
    hide Line, ChainFits, ChainEnc, ChainTyped, Wrote;
    err := BuildTlv(mp, id, tlv);
    if err != OK { return; }
    ghost var b1 := mp.buf[..];
    if mp.size % 2 == 1 {
      assert BigEndian(0, 1) == [0];
      var failed, zero := mp.ProcUnsigned(1, 0);
      if failed { return TOO_SMALL; }
    }
    PaddedWrote(old(mp.buf[..]), old(mp.cur), ChainEnc(Layout(id), tlv.slots), b1, mp.buf[..]);
  }

  // ---------------------------------------------------------------- signalling TLVs

  /** Only the cursor has moved, inside the octets of the TLV. */
  twostate predicate Consumed(mp: MsgProc)
    reads mp, mp.buf
  {
    && mp.Valid() && !mp.build && mp.buf == old(mp.buf) && mp.buf[..] == old(mp.buf[..])
    && mp.cur + mp.left == old(mp.cur + mp.left) && mp.err == TOO_SMALL
  }

  /** The outcome of handling one TLV: a failure leaves the buffer as it was. */
  twostate predicate HandledAs(mp: MsgProc, h: Handled, spec: Handled)
    reads mp, mp.buf
  {
    h == spec && mp.buf == old(mp.buf) && mp.buf[..] == old(mp.buf[..]) && (!h.Bad? ==> Consumed(mp))
  }

  /** A chain whose failure ends the message. */
  method ReadChain(mp: MsgProc, c: Chain) returns (failed: bool, slots: seq<Slot>)
    requires mp.Valid() && !mp.build && mp.err == TOO_SMALL && WellFormed(c)
    modifies mp, mp.buf
    ensures mp.buf == old(mp.buf) && mp.buf[..] == old(mp.buf[..])
    ensures var r := old(ChainParse(c, mp.Ahead()));
      if failed then r.Fail? && mp.err == r.err
      else r.Got? && r.val == slots && Consumed(mp) && mp.Moved(r.used) && mp.Ahead() == old(mp.Ahead())[r.used..]
  {
    hide ChainParse, WellFormed;
    failed, slots := mp.ProcChain(c, []);
    if !failed { SliceTail(mp.buf[..], old(mp.cur), mp.cur + mp.left, mp.cur - old(mp.cur)); }
  }

  method HandleOrganization(mp: MsgProc) returns (h: Handled)
    requires mp.Valid() && !mp.build && mp.err == TOO_SMALL
    modifies mp, mp.buf
    ensures HandledAs(mp, h, old(ReadOrganization(mp.Ahead())))
  {
    hide ChainParse, Parse;
    var failed, ids := ReadChain(mp, Organization());
    if failed { return Bad(mp.err); }
    ghost var left := mp.Ahead();
    assert left[..|left|] == left;
    var rest := mp.Take(mp.left);
    h := Kept(SigData(ids + [Scalar(Bytes(rest))]));
  }

  method HandleSync(mp: MsgProc) returns (h: Handled)
    requires mp.Valid() && !mp.build && mp.err == TOO_SMALL
    modifies mp, mp.buf
    ensures HandledAs(mp, h, old(ReadSync(mp.Ahead())))
  {
    hide ChainParse, EmptySlots;
    ghost var body := mp.Ahead();
    SyncFlagsUsed(body);
    var start := mp.cur;
    var failed, flags := ReadChain(mp, SyncFlags());
    if failed { return Bad(mp.err); }
    if mp.buf[start] / 8 % 2 == 0 { return Kept(SigData(flags + EmptySlots(SyncOptions()))); }
    var options;
    failed, options := ReadChain(mp, SyncOptions());
    if failed { return Bad(mp.err); }
    h := Kept(SigData(flags + options));
  }

  method HandleError(mp: MsgProc, linuxptp: bool) returns (h: Handled)
    requires mp.Valid() && !mp.build && mp.err == TOO_SMALL
    modifies mp, mp.buf
    ensures HandledAs(mp, h, old(ReadErrorStatus(mp.Ahead(), linuxptp)))
  {
    hide Parse, FindTlvId, Read16;
    ghost var body := mp.Ahead();
    if mp.left < 8 { return Bad(TOO_SMALL); }
    var head := mp.buf[mp.cur..mp.cur + 8];
    ReadSliced(body, 0, 8, 0);
    ReadSliced(body, 0, 8, 2);
    assert head == body[..8];
    var id := FindTlvId(Read16(head, 2), linuxptp);
    if id.None? { return Ignored; }
    SliceTail(mp.buf[..], mp.cur, mp.cur + mp.left, 8);
    mp.Move(8);
    var text: seq<octet> := [];
    if mp.left > 1 {
      var failed;
      failed, text := mp.ProcText([]);
      if failed { return Bad(TOO_SMALL); }
    }
    h := Kept(SigError(id.value, Read16(head, 0), text));
  }

  lemma ReadSliced(b: seq<octet>, at: nat, n: nat, i: nat)
    requires at + n <= |b| && i + 2 <= n
    ensures Read16(b[at..at + n], i) == Read16(b, at + i)
  {
    SubSlice(b, at, n, i, 2);
  }

  method HandleManagement(mp: MsgProc, linuxptp: bool) returns (h: Handled)
    requires mp.Valid() && !mp.build && mp.err == TOO_SMALL
    modifies mp, mp.buf
    ensures HandledAs(mp, h, old(ReadManagement(mp.Ahead(), linuxptp)))
  {
    hide ReadTlv, FindTlvId, Read16;
    ghost var body := mp.Ahead();
    if mp.left < 2 { return Bad(TOO_SMALL); }
    var head := mp.buf[mp.cur..mp.cur + 2];
    ReadSliced(body, 0, 2, 0);
    assert head == body[0..2];
    var id := FindTlvId(Read16(head, 0), linuxptp);
    if id.None? || mp.left == 2 { return Ignored; }
    SliceTail(mp.buf[..], mp.cur, mp.cur + mp.left, 2);
    mp.Move(2);
    assert mp.Ahead() == body[2..];
    var err, tlv := ParseTlv(mp, id.value);
    if err != OK { return Bad(err); }
    h := Kept(SigManagement(id.value, tlv));
  }

  /** One TLV, by its type. */
  method HandleTlv(mp: MsgProc, tlvType: nat, linuxptp: bool) returns (h: Handled)
    requires mp.Valid() && !mp.build && mp.err == TOO_SMALL
    modifies mp, mp.buf
    ensures HandledAs(mp, h, old(Handle(tlvType, mp.Ahead(), linuxptp)))
  {
    hide ReadOrganization, ReadSync, ReadErrorStatus, ReadManagement, SigLayout, ChainParse, WellFormed;
    if IsOrganization(tlvType) {
      h := HandleOrganization(mp);
    } else if tlvType == L1_SYNC {
      h := HandleSync(mp);
    } else if tlvType == MANAGEMENT_ERROR_STATUS {
      h := HandleError(mp, linuxptp);
    } else if tlvType == MANAGEMENT {
      h := HandleManagement(mp, linuxptp);
    } else {
      var c := SigLayout(tlvType, linuxptp);
      SigLayoutWellFormed(tlvType, linuxptp);
      if c.End? { return Ignored; }
      var failed, slots := ReadChain(mp, c);
      h := if failed then Bad(mp.err) else Kept(SigData(slots));
    }
  }

  lemma PrefixSlice(b: seq<octet>, n: nat, lo: nat, hi: nat)
    requires lo <= hi <= n <= |b|
    ensures b[..n][lo..hi] == b[lo..hi]
  {
  }

  /** One round of the walk: `w` holds the variables of the loop. */
  method SigRound(buf: array<octet>, b: seq<octet>, e: Env, w: Walk) returns (next: Next)
    requires |b| <= buf.Length && b == buf[..|b|] && Inside(b, w) && w.left >= 4
    modifies buf
    ensures buf[..] == old(buf[..]) && next == SigStep(e, b, w)
  {
    hide Handle, ParseAuth, Read16, AuthSigAll, AuthIgnore;
    var tlvType, len := Read16(b, w.cur), Read16(b, w.cur + 2);
    var at, body := w.cur, w.cur + 4;
    if len > w.left - 4 { return Stop(TOO_SMALL); }
    var w1 := w.(cur := body, left := w.left - 4 - len, last := tlvType);
    if tlvType == AUTHENTICATION {
      if e.auth.on {
        w1 := w1.(authAt := at, authLen := 4 + len);
        if AuthSigAll(e.prms) {
          var err := ParseAuth(e.auth, e.mac, b, at, 4 + len, false);
          if err != OK && !AuthIgnore(e.prms) { return Stop(err); }
          w1 := w1.(errAuth := err);
        }
      }
      return Go(w1);
    }
    if Filtered(e.prms, tlvType) { return Go(w1.(cur := body + len)); }
    PrefixSlice(buf[..], |b|, body, body + len);
    var mp := new MsgProc(false, buf, body, len);
    assert mp.Ahead() == b[body..body + len];
    var h := HandleTlv(mp, tlvType, e.prms.linuxptp);
    if h.Bad? { return Stop(h.err); }
    w1 := w1.(cur := mp.cur + mp.left);
    if h.Kept? { w1 := w1.(found := w.found + [(tlvType, h.tlv)]); }
    next := Go(w1);
  }

  // ---------------------------------------------------------------- replies

  method ReadErrorReply(mp: MsgProc, e: Env, was: Reply, action: nat, errAuth: Error) returns (err: Error, r: Reply)
    requires mp.Valid() && !mp.build
    modifies mp, mp.buf
    ensures mp.buf == old(mp.buf) && mp.buf[..] == old(mp.buf[..])
    ensures Received(err, r) == ReceiveError(e, was, action, old(mp.Ahead()), errAuth)
  {
    hide Parse, FindTlvId, Read16, MayReply;
    r := was;
    if action == ActionCode(COMMAND) { return ACTION, r; }
    r := r.(action := action);
    ghost var body := mp.Ahead();
    if mp.left < 8 { return TOO_SMALL, r; }
    var head := mp.buf[mp.cur..mp.cur + 8];
    ReadSliced(body, 0, 8, 0);
    ReadSliced(body, 0, 8, 2);
    assert head == body[..8];
    var id := FindTlvId(Read16(head, 2), e.prms.linuxptp);
    if id.None? { return INVALID_ID, r; }
    r := r.(id := MngTlv(id.value));
    if !MayReply(id.value, action) { return ACTION, r; }
    r := r.(errorId := Read16(head, 0));
    SliceTail(mp.buf[..], mp.cur, mp.cur + mp.left, 8);
    mp.Move(8);
    assert mp.Ahead() == body[8..];
    if mp.left > 1 {
      var failed, text := mp.ProcText([]);
      if failed { return TOO_SMALL, r; }
      r := r.(display := text);
    }
    err := OrElse(errAuth, MSG);
  }

  method ReadReply(mp: MsgProc, e: Env, was: Reply, action: nat, errAuth: Error) returns (err: Error, r: Reply)
    requires mp.Valid() && !mp.build
    modifies mp, mp.buf
    ensures mp.buf == old(mp.buf) && mp.buf[..] == old(mp.buf[..])
    ensures Received(err, r) == ReceiveManagement(e, was, action, old(mp.Ahead()), errAuth)
  {
    hide ReadTlv, FindTlvId, Read16, MayReply;
    r := was;
    if action == ActionCode(COMMAND) { return ACTION, r; }
    r := r.(action := action);
    ghost var body := mp.Ahead();
    if mp.left < 2 { return TOO_SMALL, r; }
    var head := mp.buf[mp.cur..mp.cur + 2];
    ReadSliced(body, 0, 2, 0);
    assert head == body[0..2];
    var id := FindTlvId(Read16(head, 0), e.prms.linuxptp);
    if id.None? { return INVALID_ID, r; }
    r := r.(id := MngTlv(id.value));
    if !MayReply(id.value, action) { return ACTION, r; }
    SliceTail(mp.buf[..], mp.cur, mp.cur + mp.left, 2);
    mp.Move(2);
    if mp.left == 0 { return errAuth, r; }
    assert mp.Ahead() == body[2..];
    var tlv;
    err, tlv := ParseTlv(mp, id.value);
    if err != OK { return; }
    r := r.(data := if tlv.Some? then MngData(tlv.value) else NoData);
    err := errAuth;
  }

  method ReadSmpte(mp: MsgProc, e: Env, was: Reply, action: nat, errAuth: Error) returns (err: Error, r: Reply)
    requires mp.Valid() && !mp.build && mp.err == TOO_SMALL
    modifies mp, mp.buf
    ensures mp.buf == old(mp.buf) && mp.buf[..] == old(mp.buf[..])
    ensures Received(err, r) == ReceiveSmpte(e, was, action, old(mp.Ahead()), errAuth)
  {
    hide ChainParse, WellFormed;
    r := was;
    if !e.prms.rcvSMPTEOrg { return INVALID_TLV, r; }
    if action != ActionCode(COMMAND) { return ACTION, r; }
    r := r.(action := action);
    if mp.left < 3 { return TOO_SMALL, r; }
    ghost var body := mp.Ahead();
    SmpteWellFormed();
    var oui := mp.Take(3);
    if oui != SMPTE_OUI { return INVALID_ID, r; }
    var failed, slots := ReadChain(mp, SmpteRest());
    if failed { return mp.err, r; }
    r := r.(data := SmpteData([Scalar(Bytes(oui))] + slots), id := SmpteTlv);
    err := OrElse(errAuth, SMPTE);
  }

  lemma SmpteWellFormed()
    ensures WellFormed(SmpteRest())
  {
  }
}
