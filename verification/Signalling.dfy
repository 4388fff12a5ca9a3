/**
 Signalling messages: what is read from each TLV, and the walk over all of them.
 */
module Signalling {
  import opened Octets
  import opened TlvLayout
  import opened TlvCodec
  import opened TlvSizes
  import opened SecurityAssociation
  import opened Framing

  const PATH_TRACE := 0x0008
  const ALTERNATE_TIME_OFFSET_INDICATOR := 0x0009
  const ORGANIZATION_EXTENSION_PROPAGATE := 0x4000
  const ENHANCED_ACCURACY_METRICS := 0x4001
  const ORGANIZATION_EXTENSION_DO_NOT_PROPAGATE := 0x8000
  const L1_SYNC := 0x8001
  const PORT_COMMUNICATION_AVAILABILITY := 0x8002
  const PROTOCOL_ADDRESS := 0x8003
  const SLAVE_RX_SYNC_TIMING_DATA := 0x8004
  const SLAVE_RX_SYNC_COMPUTED_DATA := 0x8005
  const SLAVE_TX_EVENT_TIMESTAMPS := 0x8006
  const CUMULATIVE_RATE_RATIO := 0x8007
  const TLV_PAD := 0x8008
  const SLAVE_DELAY_TIMING_DATA_NP := 0x7f00

  // The records of the lists

  const RX_SYNC_TIMING := Rec(false, [U(2), U48, U(4), S(8), S(4), U48, U(4)])
  const RX_SYNC_COMPUTED := Rec(false, [U(2), S(8), S(8), S(4)])
  const TX_EVENT := Rec(false, [U(2), U48, U(4)])
  const DELAY_TIMING := Rec(false, [U(2), U48, U(4), S(8), U48, U(4)])

  /** The `_f` functions that are a single chain of calls. A Float64 counts as 8 octets. */
  function SigLayout(tlvType: nat, linuxptp: bool): (c: Chain) {
    if tlvType == PATH_TRACE then Proc(Rest(CLOCK_IDENTITY), End)
    else if tlvType == ALTERNATE_TIME_OFFSET_INDICATOR then P4(U(1), S(4), S(4), U48, P(Text, End))
    else if tlvType == ENHANCED_ACCURACY_METRICS then
      P4(U(1), U(1), Reserved, Reserved, P4(S(8), Oct(8), S(8), Oct(8), Metrics()))
    else if tlvType == PORT_COMMUNICATION_AVAILABILITY then P2(Flags(0xf), Flags(0xf), End)
    else if tlvType == PROTOCOL_ADDRESS then PortAddress(End)
    else if tlvType == SLAVE_RX_SYNC_TIMING_DATA then PortIdentity(Proc(Rest(RX_SYNC_TIMING), End))
    else if tlvType == SLAVE_RX_SYNC_COMPUTED_DATA then
      PortIdentity(P2(Flags(0x7), Reserved, Proc(Rest(RX_SYNC_COMPUTED), End)))
    else if tlvType == SLAVE_TX_EVENT_TIMESTAMPS then
      PortIdentity(P2(U(1), Reserved, Proc(Rest(TX_EVENT), End)))
    else if tlvType == CUMULATIVE_RATE_RATIO then P(S(4), End)
    else if tlvType == SLAVE_DELAY_TIMING_DATA_NP && linuxptp then PortIdentity(Proc(Rest(DELAY_TIMING), End))
    else End
  }

  function Metrics(): Chain { P4(S(8), Oct(8), S(8), Oct(8), P2(S(8), Oct(8), End)) }

  lemma FixedFrom(rec: Rec)
    requires !rec.selfSized && (forall f :: f in rec.fields ==> !f.Text? && !f.Blob?)
    requires rec.fields != [] && FieldSize(rec.fields[0]) > 1
    ensures FixedRec(rec)
  {
    assert FieldsSize(rec.fields) == FieldSize(rec.fields[0]) + FieldsSize(rec.fields[1..]);
  }

  lemma RecordsFixed()
    ensures FixedRec(CLOCK_IDENTITY) && FixedRec(RX_SYNC_TIMING) && FixedRec(RX_SYNC_COMPUTED)
    ensures FixedRec(TX_EVENT) && FixedRec(DELAY_TIMING)
  {
    hide FieldsSize, FixedRec;
    FixedFrom(CLOCK_IDENTITY);
    FixedFrom(RX_SYNC_TIMING);
    FixedFrom(RX_SYNC_COMPUTED);
    FixedFrom(TX_EVENT);
    FixedFrom(DELAY_TIMING);
  }

  lemma SigLayoutWellFormed(tlvType: nat, linuxptp: bool)
    ensures WellFormed(SigLayout(tlvType, linuxptp))
  {
    hide FixedRec;
    RecordsFixed();
  }

  function SyncFlags(): Chain { P2(Flags(0xf), Flags(0x7), End) }

  /** The parameters of an extended L1_SYNC TLV. */
  function SyncOptions(): Chain { P2(Flags(0x7), S(8), Timestamp(P(S(8), Timestamp(End)))) }

  function Organization(): Chain { P2(Oct(3), Oct(3), End) }

  /** A signalling TLV as it is stored. */
  datatype SigTlv =
    | SigData(slots: seq<Slot>)
    | SigManagement(id: MngId, data: Option<Tlv>)
    | SigError(id: MngId, errorId: nat, display: seq<octet>)

  datatype Handled = Bad(err: Error) | Ignored | Kept(tlv: SigTlv)

  function Data(r: Read<seq<Slot>>): Handled { if r.Fail? then Bad(r.err) else Kept(SigData(r.val)) }

  /** `findTlvId`. */
  function FindTlvId(value: nat, linuxptp: bool): Option<MngId> {
    var id := FindId(value);
    if id.Some? && MayUse(id.value, linuxptp) then id else None
  }

  /** `call_tlv_data` on parse. An identifier without dataField gives no TLV. */
  function ReadTlv(id: MngId, rest: seq<octet>): (r: Read<Option<Tlv>>)
    ensures r.Got? ==> r.used <= |rest|
    ensures r.Fail? ==> ReadError(r.err)
  {
    hide ChainParse;
    if !HasData(id) then Got(None, 0)
    else
      match ChainParse(Layout(id), rest)
      case Fail(e) => Fail(e)
      case Got(slots, n) => Got(Some(Tlv(id, slots)), n)
  }

  function ReadErrorStatus(body: seq<octet>, linuxptp: bool): (r: Handled)
    ensures r.Bad? ==> ReadError(r.err)
  {
    if |body| < 8 then Bad(TOO_SMALL)
    else
      match FindTlvId(Read16(body, 2), linuxptp)
      case None => Ignored
      case Some(id) =>
        var text := Parse(Text, body[8..]);
        if |body| - 8 <= 1 then Kept(SigError(id, Read16(body, 0), []))
        else if text.Fail? then Bad(TOO_SMALL)
        else Kept(SigError(id, Read16(body, 0), if text.val.Bytes? then text.val.b else []))
  }

  function ReadManagement(body: seq<octet>, linuxptp: bool): (r: Handled)
    ensures r.Bad? ==> ReadError(r.err)
  {
    if |body| < 2 then Bad(TOO_SMALL)
    else
      match FindTlvId(Read16(body, 0), linuxptp)
      case None => Ignored
      case Some(id) =>
        if |body| == 2 then Ignored
        else
          match ReadTlv(id, body[2..])
          case Fail(e) => Bad(e)
          case Got(data, _) => Kept(SigManagement(id, data))
  }

  lemma SyncFlagsUsed(body: seq<octet>)
    ensures ChainParse(SyncFlags(), body).Got? ==> |body| >= 2
  {
    hide FieldsLeast, BitAnd;
    var last := Proc(One(Flags(0x7)), End);
    assert SyncFlags() == Proc(One(Flags(0xf)), last);
    if |body| >= 1 {
      assert ItemParse(One(Flags(0xf)), body).used == 1;
      assert ChainParse(last, body[1..]).Got? ==> ItemParse(One(Flags(0x7)), body[1..]).Got?;
    }
  }

  /** Without the extension its parameters are zero. */
  function ReadSync(body: seq<octet>): (r: Handled)
    ensures r.Bad? ==> ReadError(r.err)
  {
    hide FieldsLeast, EmptySlots, ChainParse;
    SyncFlagsUsed(body);
    match ChainParse(SyncFlags(), body)
    case Fail(e) => Bad(e)
    case Got(flags, n) =>
      if body[0] / 8 % 2 == 0 then Kept(SigData(flags + EmptySlots(SyncOptions())))
      else
        match ChainParse(SyncOptions(), body[n..])
        case Fail(e) => Bad(e)
        case Got(options, _) => Kept(SigData(flags + options))
  }

  function ReadOrganization(body: seq<octet>): (r: Handled)
    ensures r.Bad? ==> ReadError(r.err)
  {
    match ChainParse(Organization(), body)
    case Fail(e) => Bad(e)
    case Got(ids, n) => Kept(SigData(ids + [Scalar(Bytes(body[n..]))]))
  }

  predicate IsOrganization(tlvType: nat) {
    || tlvType == ORGANIZATION_EXTENSION || tlvType == ORGANIZATION_EXTENSION_PROPAGATE
    || tlvType == ORGANIZATION_EXTENSION_DO_NOT_PROPAGATE
  }

  /** What becomes of one TLV that is neither AUTHENTICATION nor filtered. */
  function Handle(tlvType: nat, body: seq<octet>, linuxptp: bool): (r: Handled)
    ensures r.Bad? ==> ReadError(r.err)
  {
    hide ReadOrganization, ReadSync, ReadErrorStatus, ReadManagement, SigLayout, ChainParse;
    if IsOrganization(tlvType) then ReadOrganization(body)
    else if tlvType == L1_SYNC then ReadSync(body)
    else if tlvType == MANAGEMENT_ERROR_STATUS then ReadErrorStatus(body, linuxptp)
    else if tlvType == MANAGEMENT then ReadManagement(body, linuxptp)
    else
      var c := SigLayout(tlvType, linuxptp);
      SigLayoutWellFormed(tlvType, linuxptp);
      if c.End? then Ignored else Data(ChainParse(c, body))
  }

  // ---------------------------------------------------------------- the walk

  /** What the walk takes from its message object. */
  datatype Env = Env(prms: Params, auth: Auth, mac: Mac)

  // The bits of `rcvAuth`

  predicate AuthManagement(p: Params) { p.rcvAuth % 2 == 1 }

  predicate AuthSigLast(p: Params) { p.rcvAuth / 2 % 2 == 1 }

  predicate AuthSigAll(p: Params) { p.rcvAuth / 4 % 2 == 1 }

  predicate AuthIgnore(p: Params) { p.rcvAuth / 8 % 2 == 1 }

  predicate Filtered(p: Params, tlvType: nat) { p.filterSignaling && tlvType !in p.sigTlvs }

  /** The variables of the loop. The octets that are `left` need not be those at `cur`. */
  datatype Walk = Walk(cur: nat, left: int, found: seq<(nat, SigTlv)>, last: nat,
                       authAt: nat, authLen: nat, errAuth: Error)

  datatype Next = Stop(err: Error) | Go(w: Walk)

  predicate Inside(b: seq<octet>, w: Walk) { w.left >= 0 ==> w.cur + w.left <= |b| && w.authAt + w.authLen <= |b| }

  /** One AUTHENTICATION TLV of `len` octets at `at`; the cursor stays behind its header. */
  function AuthStep(e: Env, b: seq<octet>, w: Walk, at: nat, len: nat): Next
    requires at + 4 + len <= |b|
  {
    if !e.auth.on then Go(w)
    else
      var w1 := w.(authAt := at, authLen := 4 + len);
      if !AuthSigAll(e.prms) then Go(w1)
      else
        var err := ParseAuth(e.auth, e.mac, b, at, 4 + len, false);
        if err != OK && !AuthIgnore(e.prms) then Stop(err) else Go(w1.(errAuth := err))
  }

  /** One round of the loop of `parseSig`. */
  function SigStep(e: Env, b: seq<octet>, w: Walk): (r: Next)
    requires Inside(b, w) && w.left >= 4
    ensures r.Go? ==> Inside(b, r.w) && 0 <= r.w.left < w.left
  {
    hide Handle, ParseAuth, Read16;
    var tlvType, len := Read16(b, w.cur), Read16(b, w.cur + 2);
    var at, body := w.cur, w.cur + 4;
    if len > w.left - 4 then Stop(TOO_SMALL)
    else
      var w1 := w.(cur := body, left := w.left - 4 - len, last := tlvType);
      var w2 := w1.(cur := body + len);
      if tlvType == AUTHENTICATION then AuthStep(e, b, w1, at, len)
      else if Filtered(e.prms, tlvType) then Go(w2)
      else
        match Handle(tlvType, b[body..body + len], e.prms.linuxptp)
        case Bad(err) => Stop(err)
        case Ignored => Go(w2)
        case Kept(tlv) => Go(w2.(found := w.found + [(tlvType, tlv)]))
  }

  function SigEnd(e: Env, b: seq<octet>, w: Walk): Error
    requires w.authAt + w.authLen <= |b|
  {
    if e.auth.on && (AuthSigAll(e.prms) || AuthSigLast(e.prms)) then
      if w.last != AUTHENTICATION then AUTH_NONE
      else
        var err := if AuthSigAll(e.prms) then w.errAuth
                   else ParseAuth(e.auth, e.mac, b, w.authAt, w.authLen, false);
        if err != OK then err else SIG
    else SIG
  }

  datatype Walked = Walked(err: Error, found: seq<(nat, SigTlv)>)

  function SigRun(e: Env, b: seq<octet>, w: Walk): Walked
    requires Inside(b, w) && w.authAt + w.authLen <= |b|
    decreases w.left
  {
    if w.left < 4 then Walked(SigEnd(e, b, w), w.found)
    else
      match SigStep(e, b, w)
      case Stop(err) => Walked(err, w.found)
      case Go(next) => SigRun(e, b, next)
  }

  function SigStart(b: seq<octet>): Walk { Walk(SIG_BASE_SIZE, |b| - SIG_BASE_SIZE, [], 0, 0, 0, OK) }

  // The same message, as the sequence of TLVs on the wire

  datatype Wire = Wire(at: nat, tlvType: nat, body: seq<octet>)

  datatype Parts = Parts(tlvs: seq<Wire>, whole: bool)

  /** The TLVs of a message from `at` on, and whether the last one is not cut off. */
  function Split(b: seq<octet>, at: nat): Parts
    requires at <= |b|
    decreases |b| - at
  {
    if |b| - at < 4 then Parts([], true)
    else
      var len := Read16(b, at + 2);
      if at + 4 + len > |b| then Parts([], false)
      else
        var more := Split(b, at + 4 + len);
        Parts([WireAt(b, at, len)] + more.tlvs, more.whole)
  }

  function WireAt(b: seq<octet>, at: nat, len: nat): Wire
    requires at + 4 + len <= |b|
  {
    Wire(at, Read16(b, at), b[at + 4..at + 4 + len])
  }

  function Fate(e: Env, t: Wire): Handled {
    if t.tlvType == AUTHENTICATION || Filtered(e.prms, t.tlvType) then Ignored
    else Handle(t.tlvType, t.body, e.prms.linuxptp)
  }

  /** The TLVs that are stored, in wire order. */
  function Stored(e: Env, ts: seq<Wire>): seq<(nat, SigTlv)> {
    if ts == [] then []
    else
      var f := Fate(e, ts[0]);
      (if f.Kept? then [(ts[0].tlvType, f.tlv)] else []) + Stored(e, ts[1..])
  }

  predicate IsAuth(t: Wire) { t.tlvType == AUTHENTICATION }

  /** An AUTHENTICATION TLV ends the message, unless it has no body at all. */
  predicate AuthLast(p: Parts) {
    forall i :: 0 <= i < |p.tlvs| && IsAuth(p.tlvs[i]) && p.tlvs[i].body != [] ==> p.whole && i == |p.tlvs| - 1
  }

  function CheckAuth(e: Env, b: seq<octet>, at: nat, len: nat): Error {
    if at + len <= |b| then ParseAuth(e.auth, e.mac, b, at, len, false) else AUTH_NONE
  }

  predicate Verified(e: Env, b: seq<octet>, t: Wire) { CheckAuth(e, b, t.at, 4 + |t.body|) == OK }

  /** No TLV of the rest of a message makes the receiver give up. */
  predicate Sound(e: Env, b: seq<octet>, ts: seq<Wire>) {
    forall i :: 0 <= i < |ts| ==> Passes(e, b, ts[i])
  }

  /** Every AUTHENTICATION TLV has to be verified if the receiver asks for all of them and
      does not ignore errors. */
  predicate Passes(e: Env, b: seq<octet>, t: Wire) {
    && !Fate(e, t).Bad?
    && (IsAuth(t) && e.auth.on && AuthSigAll(e.prms) && !AuthIgnore(e.prms)
        ==> Verified(e, b, t))
  }

  /** A receiver that asks for authentication wants it in the last TLV. */
  predicate LastVerified(e: Env, b: seq<octet>, w: Walk, ts: seq<Wire>) {
    e.auth.on && (AuthSigAll(e.prms) || AuthSigLast(e.prms)) ==>
      if ts != [] then IsAuth(ts[|ts| - 1]) && Verified(e, b, ts[|ts| - 1])
      else w.last == AUTHENTICATION && if AuthSigAll(e.prms) then w.errAuth == OK
                                       else CheckAuth(e, b, w.authAt, w.authLen) == OK
  }

  /** The walk is at the start of a TLV, or there is none left. */
  predicate InStep(b: seq<octet>, w: Walk, at: nat) {
    && at <= |b| && w.left == |b| - at && (w.left >= 4 ==> w.cur == at)
    && w.cur + w.left <= |b| && w.authAt + w.authLen <= |b| && w.errAuth != SIG
  }

  /** What a round does, in terms of the TLV on the wire. */
  lemma StepMeaning(e: Env, b: seq<octet>, w: Walk, len: nat)
    requires InStep(b, w, w.cur) && w.left >= 4 && len == Read16(b, w.cur + 2)
    ensures len > w.left - 4 ==> SigStep(e, b, w) == Stop(TOO_SMALL)
    ensures len <= w.left - 4 ==>
      var t, r := WireAt(b, w.cur, len), SigStep(e, b, w);
      && (r.Stop? <==> !Passes(e, b, t)) && (r.Stop? ==> r.err != SIG)
      && (r.Go? ==>
        && r.w.left == w.left - 4 - len && r.w.last == t.tlvType
        && r.w.cur == w.cur + 4 + (if IsAuth(t) then 0 else len)
        && r.w.found == w.found + Stored(e, [t])
        && r.w.authAt + r.w.authLen <= |b| && r.w.errAuth != SIG
        && LastVerified(e, b, r.w, []) == LastVerified(e, b, w, [t]))
  {
    hide Handle, ParseAuth, Read16;
    if len <= w.left - 4 {
      var t := WireAt(b, w.cur, len);
      assert [t][1..] == [] && Stored(e, []) == [];
      assert w.found + [] == w.found;
    }
  }

  lemma StoredMore(e: Env, t: Wire, ts: seq<Wire>)
    ensures Stored(e, [t] + ts) == Stored(e, [t]) + Stored(e, ts)
  {
    assert ([t] + ts)[1..] == ts && [t][1..] == [] && Stored(e, []) == [];
  }

  lemma PartsMore(p: Parts, t: Wire, rest: Parts)
    requires p == Parts([t] + rest.tlvs, rest.whole) && AuthLast(p)
    ensures AuthLast(rest)
    ensures IsAuth(t) && t.body != [] ==> rest == Parts([], true)
  {
    assert p.tlvs[0] == t;
    forall i | 0 <= i < |rest.tlvs| && IsAuth(rest.tlvs[i]) && rest.tlvs[i].body != []
      ensures p.whole && i == |rest.tlvs| - 1
    {
      assert p.tlvs[i + 1] == rest.tlvs[i];
    }
  }

  lemma SoundMore(e: Env, b: seq<octet>, t: Wire, ts: seq<Wire>)
    ensures Sound(e, b, [t] + ts) <==> Passes(e, b, t) && Sound(e, b, ts)
  {
    hide Passes;
    var all := [t] + ts;
    assert all[0] == t && all[1..] == ts;
    forall i | 0 <= i < |ts| ensures ts[i] == all[i + 1] {}
  }

  lemma {:induction false} SigRunMeaning(e: Env, b: seq<octet>, w: Walk, at: nat)
    requires InStep(b, w, at) && AuthLast(Split(b, at))
    ensures var p, r := Split(b, at), SigRun(e, b, w);
      && (r.err == SIG <==> p.whole && Sound(e, b, p.tlvs) && LastVerified(e, b, w, p.tlvs))
      && (r.err == SIG ==> r.found == w.found + Stored(e, p.tlvs))
    decreases |b| - at
  {
    hide Passes, LastVerified, AuthLast, SigStep, SigEnd, Read16, Stored;
    var p := Split(b, at);
    if w.left < 4 {
      EndMeaning(e, b, w);
    } else {
      var len := Read16(b, at + 2);
      StepMeaning(e, b, w, len);
      if at + 4 + len <= |b| {
        var t, rest := WireAt(b, at, len), Split(b, at + 4 + len);
        PartsMore(p, t, rest);
        SoundMore(e, b, t, rest.tlvs);
        StoredMore(e, t, rest.tlvs);
        var r := SigStep(e, b, w);
        if r.Go? {
          SigRunMeaning(e, b, r.w, at + 4 + len);
          LastMore(e, b, w, r.w, t, rest.tlvs);
        }
      }
    }
  }

  lemma EndMeaning(e: Env, b: seq<octet>, w: Walk)
    requires w.authAt + w.authLen <= |b| && w.errAuth != SIG
    ensures SigEnd(e, b, w) == SIG <==> LastVerified(e, b, w, [])
    ensures Sound(e, b, []) && w.found + Stored(e, []) == w.found
  {
    hide ParseAuth, AuthSigAll, AuthSigLast, AuthIgnore;
  }

  lemma LastMore(e: Env, b: seq<octet>, w: Walk, next: Walk, t: Wire, ts: seq<Wire>)
    requires LastVerified(e, b, next, []) == LastVerified(e, b, w, [t])
    ensures LastVerified(e, b, next, ts) == LastVerified(e, b, w, [t] + ts)
  {
    hide Verified;
    if ts == [] { assert [t] + ts == [t]; } else { assert ([t] + ts)[|ts|] == ts[|ts| - 1]; }
  }

  /** A signalling message whose AUTHENTICATION TLV is last is accepted exactly when its
      TLVs fill it, none of them is malformed and the receiver's policy is satisfied; then
      the recognised TLVs that pass the filter are stored in wire order. */
  lemma SignallingAccepted(e: Env, b: seq<octet>)
    requires |b| >= SIG_BASE_SIZE && AuthLast(Split(b, SIG_BASE_SIZE))
    ensures var p, r := Split(b, SIG_BASE_SIZE), SigRun(e, b, SigStart(b));
      && (r.err == SIG <==> p.whole && Sound(e, b, p.tlvs) && LastVerified(e, b, SigStart(b), p.tlvs))
      && (r.err == SIG ==> r.found == Stored(e, p.tlvs))
  {
    hide Sound, LastVerified, SigRun, Stored;
    SigRunMeaning(e, b, SigStart(b), SIG_BASE_SIZE);
    var ts := Stored(e, Split(b, SIG_BASE_SIZE).tlvs);
    assert [] + ts == ts;
  }

  // What happens otherwise

  /** The cursor is where the octets that are left begin, each time the walk reads a
      header. It does not move past the body of an AUTHENTICATION TLV. */
  predicate Synced(b: seq<octet>, cur: nat, left: nat)
    requires cur + left <= |b|
    decreases left
  {
    left >= 4 ==>
      && cur + left == |b|
      && var len := Read16(b, cur + 2);
         len <= left - 4 ==>
           Synced(b, cur + 4 + (if Read16(b, cur) == AUTHENTICATION then 0 else len), left - 4 - len)
  }

  /** The walk keeps in step with the message exactly when AUTHENTICATION comes last. */
  lemma {:induction false} SyncedExactly(b: seq<octet>, at: nat)
    requires at <= |b|
    ensures Synced(b, at, |b| - at) <==> AuthLast(Split(b, at))
    decreases |b| - at
  {
    hide AuthLast, Read16;
    NoParts();
    if |b| - at >= 4 {
      var len := Read16(b, at + 2);
      if at + 4 + len <= |b| {
        var t, rest := WireAt(b, at, len), Split(b, at + 4 + len);
        PartsMoreExactly(Split(b, at), t, rest);
        SyncedExactly(b, at + 4 + len);
      }
    }
  }

  lemma NoParts()
    ensures AuthLast(Parts([], true)) && AuthLast(Parts([], false))
  {
  }

  lemma PartsMoreExactly(p: Parts, t: Wire, rest: Parts)
    requires p == Parts([t] + rest.tlvs, rest.whole)
    ensures AuthLast(p) <==> AuthLast(rest) && (IsAuth(t) && t.body != [] ==> rest == Parts([], true))
  {
    if AuthLast(p) { PartsMore(p, t, rest); }
    assert forall i :: 0 < i < |p.tlvs| ==> p.tlvs[i] == rest.tlvs[i - 1];
  }

  /** The cursor moves as `Synced` says. */
  lemma StepCursor(e: Env, b: seq<octet>, w: Walk)
    requires Inside(b, w) && w.left >= 4 && SigStep(e, b, w).Go?
    ensures var next, len := SigStep(e, b, w).w, Read16(b, w.cur + 2);
      && next.left == w.left - 4 - len
      && next.cur == w.cur + 4 + if Read16(b, w.cur) == AUTHENTICATION then 0 else len
  {
    hide Handle, ParseAuth, Read16;
  }

  /** An AUTHENTICATION TLV in front of an empty TLV_PAD. */
  const AUTH_FIRST: seq<octet> := Zeros(SIG_BASE_SIZE) + [0x80, 0x09, 0, 2, 0, 0, 0x80, 0x08, 0, 0]

  /** That message is well-formed, but the walk loses its way in it. */
  lemma AuthFirstRefused(e: Env)
    requires !e.auth.on && !e.prms.filterSignaling
    ensures var p := Split(AUTH_FIRST, SIG_BASE_SIZE);
      && p.whole && Sound(e, AUTH_FIRST, p.tlvs) && LastVerified(e, AUTH_FIRST, SigStart(AUTH_FIRST), p.tlvs)
    ensures SigRun(e, AUTH_FIRST, SigStart(AUTH_FIRST)).err == TOO_SMALL
  {
    hide ParseAuth, Read16, Handle;
    var b := AUTH_FIRST;
    ReadPair(b, 44, 0x80, 0x09);
    ReadPair(b, 46, 0, 2);
    ReadPair(b, 48, 0, 0);
    ReadPair(b, 50, 0x80, 0x08);
    ReadPair(b, 52, 0, 0);
    var w := SigStart(b);
    var w1 := w.(cur := 48, left := 4, last := AUTHENTICATION);
    assert SigStep(e, b, w) == Go(w1);
    assert SigStep(e, b, w1) == Stop(TOO_SMALL);
    var auth, pad := WireAt(b, 44, 2), WireAt(b, 50, 0);
    assert Split(b, 54) == Parts([], true);
    assert Split(b, 50).tlvs == [pad];
    assert Split(b, 44).tlvs == [auth, pad];
    HandlePad(pad.body, e.prms.linuxptp);
    assert Passes(e, b, auth) && Passes(e, b, pad);
  }

  lemma HandlePad(body: seq<octet>, linuxptp: bool)
    ensures Handle(TLV_PAD, body, linuxptp) == Ignored
  {
  }

  lemma ReadPair(b: seq<octet>, at: nat, high: octet, low: octet)
    requires at + 2 <= |b| && b[at] == high && b[at + 1] == low
    ensures Read16(b, at) == 256 * high + low
  {
    var two := b[at..at + 2];
    assert two[..1] == [high] && [high][..0] == [];
    assert FromBigEndian([high]) == high;
  }
}
