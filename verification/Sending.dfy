/**
 What a message object is to send: the calls that prepare it, the length that is planned
 for it, and the calls that select the key it is signed with.
 */
module SendingState {
  import opened Octets
  import opened TlvLayout
  import opened TlvCodec
  import opened TlvSizes
  import opened MessageProcessor
  import opened SecurityAssociation
  import opened Framing

  /** What a message object holds for the next `build`. */
  datatype Sending = Sending(action: Action, id: MngId, data: Option<Tlv>)

  /** The action suits the identifier, and data is at hand exactly when it is needed. */
  ghost predicate SendingOk(s: Sending) {
    && (s.action.GET? || (s.action.SET? && Line(s.id).allowed.set_) || (s.action.COMMAND? && Line(s.id).allowed.command))
    && (s.data.Some? <==> !s.action.GET? && HasData(s.id))
    && (s.data.Some? ==> s.data.value.id == s.id && ChainTyped(Layout(s.id), s.data.value.slots))
  }

  /** The values can be written to their wire fields. */
  ghost predicate SendingFits(s: Sending) {
    s.data.Some? ==> ChainFits(Layout(s.id), s.data.value.slots)
  }

  /** The dataField with its pad octet: the data, zeros for a GET, or nothing. */
  ghost function Payload(s: Sending, useZeroGet: bool): (b: seq<octet>)
    requires SendingFits(s)
  {
    if s.data.Some? then Padded(ChainEnc(Layout(s.id), s.data.value.slots))
    else if s.action.GET? && !useZeroGet && PlannedSize(s.id, None) >= 0 then Zeros(PlannedSize(s.id, None))
    else []
  }

  /** `getMsgPlanedLen`, with `signature` octets for an AUTHENTICATION TLV. */
  function PlannedLength(s: Sending, useZeroGet: bool, signature: nat): int {
    if s.action.GET? && useZeroGet then MNG_BASE_SIZE + signature
    else if Line(s.id).size == -2 && s.data.None? && !s.action.GET? then -2
    else
      var size := PlannedSize(s.id, if s.data.None? then None else Some(s.data.value.slots));
      if size < 0 then size else size + MNG_BASE_SIZE + signature
  }

  lemma ClockDescriptionOnlyGet()
    ensures !Line(CLOCK_DESCRIPTION).allowed.set_ && !Line(CLOCK_DESCRIPTION).allowed.command
  {
  }

  lemma PlannedSizeEmpty(id: MngId)
    ensures PlannedSize(id, None) >= 0 && PlannedSize(id, None) % 2 == 0
    ensures !HasData(id) ==> PlannedSize(id, None) == 0
  {
    hide Line, CountedSize, ChainSize, WellFormed, FixedChain, VariableLayout, EmptySlots;
    if Line(id).size == -2 { CountedSizeNat(id, EmptySlots(Layout(id))); }
  }

  /** The planned length is the length of the message, an even number. */
  lemma PlannedLengthAgrees(s: Sending, useZeroGet: bool, signature: nat)
    requires SendingOk(s) && SendingFits(s)
    ensures PlannedLength(s, useZeroGet, signature) == MNG_BASE_SIZE + |Payload(s, useZeroGet)| + signature
    ensures |Payload(s, useZeroGet)| % 2 == 0
  {
    hide Line, CountedSize, ChainEnc, ChainFits, ChainTyped, PlannedSize;
    PlannedSizeEmpty(s.id);
    if s.data.Some? {
      ClockDescriptionOnlyGet();
      PlannedSizeAgrees(s.id, s.data.value.slots);
    } else if !s.action.GET? {
      NoDataSize(s.id);
    }
  }

  lemma NoDataSize(id: MngId)
    ensures !HasData(id) ==> Line(id).size == 0 && PlannedSize(id, None) == 0
  {
    hide Line;
  }

  // ---------------------------------------------------------------- calls that prepare a message

  datatype SendCall = SetActionCall(action: Action, id: MngId, data: Option<Tlv>) | ClearDataCall

  /** A caller hands over structures of the right C++ type. */
  ghost predicate CallTyped(c: SendCall) {
    c.SetActionCall? && c.data.Some? ==> ChainTyped(Layout(c.data.value.id), c.data.value.slots)
  }

  /** `setAction` accepts the call: the table allows it, and its data is what the action needs. */
  predicate CallAllowed(c: SendCall, linuxptp: bool) {
    c.SetActionCall? ==>
      && MaySend(c.id, c.action, linuxptp)
      && (c.action != GET && HasData(c.id) ==> c.data.Some? && c.data.value.id == c.id)
  }

  function ApplySend(s: Sending, c: SendCall, linuxptp: bool): Sending {
    match c
    case ClearDataCall => if s.data.Some? then Sending(GET, s.id, None) else s
    case SetActionCall(action, id, data) =>
      if !CallAllowed(c, linuxptp) then s
      else Sending(action, id, if action != GET && HasData(id) then data else None)
  }

  lemma SendKeepsOk(s: Sending, c: SendCall, linuxptp: bool)
    requires SendingOk(s) && CallTyped(c)
    ensures SendingOk(ApplySend(s, c, linuxptp))
  {
    hide Line, ChainTyped;
  }

  /** A run of calls; the parameters may be updated in between. */
  function RunSend(s: Sending, calls: seq<(SendCall, bool)>): Sending
    decreases |calls|
  {
    if calls == [] then s else RunSend(ApplySend(s, calls[0].0, calls[0].1), calls[1..])
  }

  const NO_SENDING := Sending(GET, NULL_PTP_MANAGEMENT, None)

  lemma {:induction false} RunSendOk(s: Sending, calls: seq<(SendCall, bool)>)
    requires SendingOk(s) && forall i :: 0 <= i < |calls| ==> CallTyped(calls[i].0)
    ensures SendingOk(RunSend(s, calls))
    decreases |calls|
  {
    hide SendingOk, CallTyped, ApplySend;
    if calls != [] {
      SendKeepsOk(s, calls[0].0, calls[0].1);
      RunSendOk(ApplySend(s, calls[0].0, calls[0].1), calls[1..]);
    }
  }

  /** In every state a run of calls reaches, the planned length is even and is the length of
      the message, unless a value does not fit its wire field. */
  lemma PlannedInEveryRun(calls: seq<(SendCall, bool)>, useZeroGet: bool, signature: nat)
    requires forall i :: 0 <= i < |calls| ==> CallTyped(calls[i].0)
    ensures var s := RunSend(NO_SENDING, calls);
      SendingFits(s) ==>
        && |Payload(s, useZeroGet)| % 2 == 0
        && PlannedLength(s, useZeroGet, signature) == MNG_BASE_SIZE + |Payload(s, useZeroGet)| + signature
  {
    hide PlannedLength, Payload, SendingFits, RunSend;
    RunSendOk(NO_SENDING, calls);
    var s := RunSend(NO_SENDING, calls);
    if SendingFits(s) { PlannedLengthAgrees(s, useZeroGet, signature); }
  }

  // ---------------------------------------------------------------- calls that set the key

  /** `made` tells whether the HMAC library made the key of this call. */
  datatype AuthCall =
    | UseAuthCall(sa: SppMap, spp: nat, key: nat, made: bool)
    | ChangeAuthCall(spp: nat, key: nat, made: bool)
    | ChangeKeyCall(key: nat, made: bool)
    | DisableAuthCall

  /** `useAuth`, `changeAuth` and `disableAuth`; a call that fails changes nothing. */
  function ApplyAuth(a: Auth, c: AuthCall): (r: Auth) {
    match c
    case UseAuthCall(sa, spp, key, made) =>
      if Have(sa, spp, key) && made then Auth(true, sa, spp, key, KeyOf(sa, spp, key)) else a
    case ChangeAuthCall(spp, key, made) => Changed(a, spp, key, made)
    case ChangeKeyCall(key, made) => Changed(a, a.spp, key, made)
    case DisableAuthCall => a.(on := false)
  }

  function Changed(a: Auth, spp: nat, key: nat, made: bool): Auth {
    if a.on && Have(a.sa, spp, key) && made then
      a.(spp := spp, key := key, hmac := KeyOf(a.sa, spp, key))
    else a
  }

  function RunAuth(a: Auth, calls: seq<AuthCall>): Auth
    decreases |calls|
  {
    if calls == [] then a else RunAuth(ApplyAuth(a, calls[0]), calls[1..])
  }

  const NO_AUTH := Auth(false, map[], 255, 0, HmacKey(SHA256, []))

  /** In every state a run of calls reaches, the HMAC object holds the selected key of the
      stored associations, and its digest is even and between 2 and 32 octets. */
  lemma {:induction false} RunAuthOk(a: Auth, calls: seq<AuthCall>)
    requires AuthOk(a) && forall i :: 0 <= i < |calls| && calls[i].UseAuthCall? ==> SaOk(calls[i].sa)
    ensures var r := RunAuth(a, calls);
      && AuthOk(r)
      && (r.on ==> var n := MacSize(r.sa, r.spp, r.key); n % 2 == 0 && 2 <= n <= 32)
    decreases |calls|
  {
    hide SaOk, Have;
    if calls == [] {
      if a.on { MacSizeBounds(a); }
    } else {
      RunAuthOk(ApplyAuth(a, calls[0]), calls[1..]);
    }
  }
}
