/**
 Which TLVs are taken and which are refused, by the octets of their bodies: answers to
 requests, and the TLVs of signalling messages that are not read as a plain list of members.
 */
module WireAnswers {
  import opened Octets
  import opened TlvLayout
  import opened TlvCodec
  import opened TlvSizes
  import opened Framing
  import opened Signalling
  import opened Receiving
  import opened WireFormats
  import opened WireBodies
  import A = TlvActions

  /** An identifier of linuxptp needs that to be the implementation. */
  predicate Usable(v: nat, linuxptp: bool) { v >= 0xc000 ==> linuxptp }

  /** ACKNOWLEDGE (4) answers a COMMAND, RESPONSE (2) a GET or a SET. */
  predicate Permitted(v: nat, action: nat) {
    (action == 4 && A.Commanded(v)) || (action == 2 && (A.Settable(v) || A.Read(v)))
  }

  lemma UsableIs(id: MngId, linuxptp: bool)
    ensures MayUse(id, linuxptp) <==> Usable(IdValue(id), linuxptp)
  {
    hide Line, IdValue, A.Read, A.Settable, A.Commanded, A.WithData;
    A.AllowedColumn(id);
  }

  lemma Known(id: MngId, linuxptp: bool)
    requires Usable(IdValue(id), linuxptp)
    ensures IdValue(id) < 0x1_0000 && FindTlvId(IdValue(id), linuxptp) == Some(id)
  {
    hide MayUse, IdValue, FindTlvId;
    UsableIs(id, linuxptp);
    IdFound(id, linuxptp);
  }

  /** No identifier that can be used has this value. */
  ghost predicate Strange(v: nat, linuxptp: bool) { forall id :: IdValue(id) == v ==> !Usable(v, linuxptp) }

  lemma Unknown(v: nat, linuxptp: bool)
    requires Strange(v, linuxptp)
    ensures FindTlvId(v, linuxptp) == None
  {
    hide MayUse, IdValue, FindId;
    if FindId(v).Some? {
      FoundIsValue(v);
      UsableIs(FindId(v).value, linuxptp);
    }
  }

  /** An answer is refused without its identifier, with one that is not known, and with an
      action that does not belong to it. */
  lemma AnswerRefused(e: Env, r: Reply, action: nat, body: seq<octet>, err: Error)
    ensures var out := ReceiveManagement(e, r, action, body, err);
      && (action == 3 ==> out == Received(Error.ACTION, r))
      && (action != 3 && |body| < 2 ==> out == Received(TOO_SMALL, r.(action := action)))
      && (action != 3 && |body| >= 2 && Strange(Pair(body, 0), e.prms.linuxptp) ==>
            out == Received(INVALID_ID, r.(action := action)))
  {
    hide Read16, FindTlvId, ReadTlv, MayReply, Strange;
    if |body| >= 2 {
      ReadDigits(body, 0);
      if Strange(Pair(body, 0), e.prms.linuxptp) { Unknown(Pair(body, 0), e.prms.linuxptp); }
    }
  }

  lemma AnswerTaken(e: Env, r: Reply, action: nat, id: MngId, data: seq<octet>, err: Error)
    requires action != 3 && Usable(IdValue(id), e.prms.linuxptp)
    ensures var out := ReceiveManagement(e, r, action, Digits(IdValue(id), 2) + data, err);
      var named, p := r.(action := action, id := MngTlv(id)), ReadTlv(id, data);
      out == if !Permitted(IdValue(id), action) then Received(Error.ACTION, named)
             else if data == [] then Received(err, named)
             else if p.Fail? then Received(p.err, named)
             else Received(err, named.(data := if p.val.Some? then MngData(p.val.value) else NoData))
  {
    hide Read16, FindTlvId, IdValue, ReadTlv, MayReply, Digits, A.Commanded, A.Settable, A.Read;
    Known(id, e.prms.linuxptp);
    FirstTwo(IdValue(id), data);
    A.ReplyExactly(id, action);
  }

  /** The text of an error status is behind eight octets and its length; at most one octet is
      no text. */
  predicate TextWhole(body: seq<octet>)
    requires |body| >= 8
  {
    |body| <= 9 || var n: nat := body[8]; 9 + n <= |body|
  }

  function TextOf(body: seq<octet>): seq<octet>
    requires |body| >= 8 && TextWhole(body)
  {
    if |body| <= 9 then [] else var n: nat := body[8]; body[9..9 + n]
  }

  /** An error status holds the error, the identifier, four octets that are ignored and a text. */
  lemma StatusStored(body: seq<octet>, id: MngId, linuxptp: bool)
    requires |body| >= 8 && IdValue(id) == Pair(body, 2) && Usable(Pair(body, 2), linuxptp)
    ensures Handle(2, body, linuxptp)
         == if TextWhole(body) then Handled.Kept(SigError(id, Pair(body, 0), TextOf(body))) else Bad(TOO_SMALL)
  {
    hide Read16, FindTlvId, IdValue, Parse, Usable, TextOf, TextWhole;
    Known(id, linuxptp);
    ReadDigits(body, 0);
    ReadDigits(body, 2);
    StatusText(body);
  }

  /** The same as an answer, with an action that belongs to the identifier. */
  lemma StatusAnswered(e: Env, r: Reply, action: nat, body: seq<octet>, id: MngId, err: Error)
    requires action != 3 && |body| >= 8 && IdValue(id) == Pair(body, 2) && Usable(Pair(body, 2), e.prms.linuxptp)
    ensures var named := r.(action := action, id := MngTlv(id));
      var told := named.(errorId := Pair(body, 0));
      ReceiveError(e, r, action, body, err)
      == if !Permitted(Pair(body, 2), action) then Received(Error.ACTION, named)
         else if !TextWhole(body) then Received(TOO_SMALL, told)
         else Received(if err != OK then err else MSG, if |body| > 9 then told.(display := TextOf(body)) else told)
  {
    hide Read16, FindTlvId, IdValue, MayReply, Parse, Permitted, Usable, TextOf, TextWhole, Pair;
    Known(id, e.prms.linuxptp);
    ReadDigits(body, 0);
    ReadDigits(body, 2);
    PermittedIs(id, action);
    StatusText(body);
  }

  lemma PermittedIs(id: MngId, action: nat)
    ensures MayReply(id, action) <==> Permitted(IdValue(id), action)
  {
    hide IdValue, MayReply, A.Commanded, A.Settable, A.Read;
    A.ReplyExactly(id, action);
  }

  lemma StatusText(body: seq<octet>)
    requires |body| >= 8
    ensures |body| <= 9 ==> TextWhole(body) && TextOf(body) == []
    ensures |body| > 9 ==>
      var p := Parse(Text, body[8..]); p == if TextWhole(body) then Got(Bytes(TextOf(body)), 1 + |TextOf(body)|) else Fail(TOO_SMALL)
  {
    if |body| > 9 {
      var n: nat := body[8];
      assert body[8..][0] == body[8];
      if 9 + n <= |body| { assert body[8..][1..1 + n] == body[9..9 + n]; }
    }
  }

  lemma StatusRefused(e: Env, r: Reply, action: nat, body: seq<octet>, err: Error)
    requires |body| < 8 || Strange(Pair(body, 2), e.prms.linuxptp)
    ensures Handle(2, body, e.prms.linuxptp) == if |body| < 8 then Bad(TOO_SMALL) else Ignored
    ensures ReceiveError(e, r, action, body, err)
      == if action == 3 then Received(Error.ACTION, r)
         else Received(if |body| < 8 then TOO_SMALL else INVALID_ID, r.(action := action))
  {
    hide Read16, FindTlvId, MayReply, Strange;
    if |body| >= 8 {
      ReadDigits(body, 2);
      Unknown(Pair(body, 2), e.prms.linuxptp);
    }
  }

  /** Organization extensions of SMPTE are taken only if they are asked for, in a command, and
      with the identifier 68-97-e8. */
  lemma SmpteRefused(e: Env, r: Reply, action: nat, body: seq<octet>, err: Error)
    requires !e.prms.rcvSMPTEOrg || action != 3 || |body| < 3 || body[..3] != [0x68, 0x97, 0xe8]
    ensures var out := ReceiveSmpte(e, r, action, body, err);
      && out.reply.data == r.data && out.reply.id == r.id
      && out.err == if !e.prms.rcvSMPTEOrg then INVALID_TLV else if action != 3 then Error.ACTION
                    else if |body| < 3 then TOO_SMALL else INVALID_ID
  {
    hide ChainParse, SmpteRest;
  }

  /** Bodies that are too short for what they have to hold. */
  lemma ShortRefused(body: seq<octet>, linuxptp: bool)
    ensures |body| < 2 ==> Handle(1, body, linuxptp) == Bad(TOO_SMALL)
    ensures |body| < 6 ==> forall t :: t == 3 || t == 0x4000 || t == 0x8000 ==> Handle(t, body, linuxptp) == Bad(TOO_SMALL)
    ensures |body| < 2 || (|body| < 39 && body[0] / 8 % 2 == 1) ==> Handle(0x8001, body, linuxptp) == Bad(TOO_SMALL)
  {
    hide ChainParse, EmptySlots, SyncFlags, SyncOptions, Organization, ReadTlv, FindTlvId, ChainReads, WellFormed, FixedChain;
    if |body| < 6 { ShortOrganization(body); }
    ShortSync(body);
  }

  lemma ShortOrganization(body: seq<octet>)
    requires |body| < 6
    ensures ChainParse(Organization(), body) == Fail(TOO_SMALL)
  {
    hide ChainReads, ChainParse, SizeOf;
    EndReads();
    ReadsP2(Oct(3), Oct(3), Raw(3), Raw(3), End, [], []);
    var ms := [Raw(3), Raw(3)];
    assert ms + [] == ms && ms[1..] == [Raw(3)];
    SizeNext(ms);
    SizeNext(ms[1..]);
    ShortFails(Organization(), Format(ms, []), body);
  }

  lemma SizeNext(ms: seq<Member>)
    requires ms != [] && !ms[0].Str? && !ms[0].Addr?
    ensures SizeOf(ms) == SizeOf(ms[1..]) + match ms[0] case N(w) => w case Z(w) => w case Raw(k) => k case _ => 1
    ensures SizeOf([]) == 0
  {
  }

  lemma ShortSync(body: seq<octet>)
    ensures |body| < 2 || (|body| < 39 && body[0] / 8 % 2 == 1) ==> ReadSync(body) == Bad(TOO_SMALL)
  {
    hide ChainReads, ChainParse, SyncFlags, SyncOptions, WellFormed, FixedChain, EmptySlots, WrittenAll, HoldAll, SizeOf;
    SyncReads();
    SyncSizes();
    if |body| < 2 {
      ShortFails(SyncFlags(), Format(SYNC, []), body);
    } else if |body| < 39 {
      var vs, rest := [Num(body[0]), Num(body[1])], body[2..];
      HeldFlags(vs);
      FlagOctets(vs);
      assert body == [vs[0].n, vs[1].n] + rest;
      SyncPart(SyncFlags(), SYNC, vs, rest);
      ShortFails(SyncOptions(), Format(SYNC_OPTIONS, []), rest);
    }
  }

  lemma HeldFlags(vs: seq<Val>)
    requires |vs| == 2 && Holds(Bits, vs[0]) && Holds(Bits, vs[1])
    ensures HoldAll(SYNC, vs)
  {
  }

  lemma SyncSizes()
    ensures SizeOf(SYNC) == 2 && SizeOf(SYNC_OPTIONS) == 37
  {
    hide SizeOf;
    SizeNext(SYNC);
    SizeNext([Bits]);
    var a, b := [Z(8), N(6), N(4), Z(8), N(6), N(4)], [Z(8), N(6), N(4)];
    assert SYNC_OPTIONS[1..] == a && a[1..][1..][1..] == b && b[1..][1..][1..] == [];
    SizeNext(SYNC_OPTIONS);
    SizeNext(a);
    SizeNext(a[1..]);
    SizeNext(a[1..][1..]);
    SizeNext(b);
    SizeNext(b[1..]);
    SizeNext(b[1..][1..]);
  }
}
