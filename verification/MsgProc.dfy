/**
 `MsgProc`: one object with a moving cursor that writes or reads a dataField in place.
 The same calls run in both directions, depending on `build`.
 */
module MessageProcessor {
  import opened Octets
  import opened TlvLayout
  import opened TlvCodec

  /** `after` is `before` with `bs` written at `start`. */
  ghost predicate Wrote(before: seq<octet>, start: nat, bs: seq<octet>, after: seq<octet>) {
    && start + |bs| <= |before| == |after|
    && after == before[..start] + bs + before[start + |bs|..]
  }

  lemma WroteTwice(before: seq<octet>, start: nat, x: seq<octet>, mid: seq<octet>, y: seq<octet>, after: seq<octet>)
    requires Wrote(before, start, x, mid) && Wrote(mid, start + |x|, y, after)
    ensures Wrote(before, start, x + y, after)
  {
    assert mid[..start + |x|] == before[..start] + x;
    assert mid[start + |x| + |y|..] == before[start + |x| + |y|..];
    assert before[..start] + x + y == before[..start] + (x + y);
  }

  /** Only the octets from `lo` up to `hi` may differ. */
  ghost predicate Within(before: seq<octet>, lo: nat, hi: nat, after: seq<octet>) {
    lo <= hi <= |before| == |after| && after[..lo] == before[..lo] && after[hi..] == before[hi..]
  }

  /** What a build step does to a buffer with the cursor at `c` and `l` octets left: it
      writes the octets `bs`, or fails without touching anything outside that space. */
  ghost predicate Step(b0: seq<octet>, c: nat, l: nat, failed: bool, bs: seq<octet>, b1: seq<octet>) {
    && c + l <= |b0| == |b1|
    && (if failed then Within(b0, c, c + l, b1) else |bs| <= l && Wrote(b0, c, bs, b1))
  }

  lemma StepTwice(b0: seq<octet>, c: nat, l: nat, x: seq<octet>, b1: seq<octet>, failed: bool, y: seq<octet>, b2: seq<octet>)
    requires |x| <= l && Step(b0, c, l, false, x, b1)
    requires Step(b1, c + |x|, l - |x|, failed, y, b2)
    ensures Step(b0, c, l, failed, x + y, b2)
  {
    if failed {
      var mid, hi := c + |x|, c + l;
      assert b2[..c] == b2[..mid][..c] == b1[..mid][..c] == b1[..c] == b0[..c];
      assert b1[hi..] == b0[hi..];
    } else {
      WroteTwice(b0, c, x, b1, y, b2);
    }
  }

  lemma StepNone(b: seq<octet>, c: nat, l: nat)
    requires c + l <= |b|
    ensures Outcome(b, c, l, false, true, [], b)
  {
    assert b == b[..c] + [] + b[c..];
  }

  /** A build step succeeds exactly when the values fit their wire fields and their
      encoding `bs` fits the space left. */
  ghost predicate Outcome(b0: seq<octet>, c: nat, l: nat, failed: bool, fits: bool, bs: seq<octet>, b1: seq<octet>) {
    (failed <==> !(fits && |bs| <= l)) && Step(b0, c, l, failed, bs, b1)
  }

  /** A chain whose first call fails fails with it. */
  lemma FirstFails(b0: seq<octet>, c: nat, l: nat, fits1: bool, x: seq<octet>, b1: seq<octet>, fits: bool, all: seq<octet>)
    requires Outcome(b0, c, l, true, fits1, x, b1)
    requires fits ==> fits1 && |x| <= |all|
    ensures Outcome(b0, c, l, true, fits, all, b1)
  {
  }

  lemma OutcomeFits(b0: seq<octet>, c: nat, l: nat, fits: bool, x: seq<octet>, b1: seq<octet>)
    requires Outcome(b0, c, l, false, fits, x, b1)
    ensures fits && |x| <= l
  {
  }

  /** A chain whose first call succeeds ends like the rest of it. */
  lemma ThenRest(b0: seq<octet>, c: nat, l: nat, x: seq<octet>, b1: seq<octet>,
                 failed: bool, fits2: bool, y: seq<octet>, b2: seq<octet>, fits: bool, all: seq<octet>)
    requires |x| <= l && Outcome(b0, c, l, false, true, x, b1)
    requires Outcome(b1, c + |x|, l - |x|, failed, fits2, y, b2)
    requires (fits <==> fits2) && (fits ==> all == x + y)
    ensures Outcome(b0, c, l, failed, fits, all, b2)
  {
    StepTwice(b0, c, l, x, b1, failed, y, b2);
  }

  // What a caller of `build` hands over: values of the right C++ types, in lists that
  // are no longer than their count can say.

  ghost predicate TypedAll(fs: seq<Field>, vs: seq<Val>) {
    |fs| == |vs| && forall i :: 0 <= i < |fs| ==> Typed(fs[i], vs[i])
  }

  ghost predicate RecTyped(rec: Rec, vs: seq<Val>) {
    TypedAll(rec.fields, vs) && (FitsAll(rec.fields, vs) ==> RecFits(rec, vs))
  }

  ghost predicate RecsTyped(rec: Rec, recs: seq<seq<Val>>) {
    forall i :: 0 <= i < |recs| ==> RecTyped(rec, recs[i])
  }

  ghost predicate ItemTyped(item: Item, s: Slot) {
    match item
    case One(f) => s.Scalar? && Typed(f, s.v)
    case Counted(_, _, rec) => s.List? && |s.recs| < CountLimit(item) && RecsTyped(rec, s.recs)
    case Rest(rec) => s.List? && RecsTyped(rec, s.recs)
  }

  ghost predicate ChainTyped(c: Chain, ss: seq<Slot>) {
    match c
    case End => ss == []
    case Proc(item, next) => |ss| > 0 && ItemTyped(item, ss[0]) && ChainTyped(next, ss[1..])
  }

  lemma SliceTail(b: seq<octet>, c: nat, hi: nat, n: nat)
    requires c + n <= hi <= |b|
    ensures b[c..hi][n..] == b[c + n..hi]
  {
  }

  lemma CountedStep(rec: Rec, count: nat, a: seq<octet>, r: Read<seq<seq<Val>>>, out: seq<seq<Val>>, used: nat)
    requires r == Prepend(out, used, CountedParse(rec, count, a))
    ensures count == 0 ==> r == Got(out, used)
    ensures count > 0 ==>
      var one := RecParse(rec, a);
      r == if one.Fail? then Fail(one.err)
           else Prepend(out + [one.val], used + one.used, CountedParse(rec, count - 1, a[one.used..]))
  {
    assert out + [] == out;
    if count > 0 && RecParse(rec, a).Got? {
      var one := RecParse(rec, a);
      PrependMore(out, used, one.val, one.used, CountedParse(rec, count - 1, a[one.used..]));
    }
  }

  lemma RestStep(rec: Rec, a: seq<octet>, r: Read<seq<seq<Val>>>, out: seq<seq<Val>>, used: nat)
    requires FixedRec(rec) && r == Prepend(out, used, RestParse(rec, a))
    ensures |a| < FieldsSize(rec.fields) ==> r == Got(out, used)
    ensures |a| >= FieldsSize(rec.fields) ==>
      var one := RecParse(rec, a);
      one.Got? && one.used > 0 && r == Prepend(out + [one.val], used + one.used, RestParse(rec, a[one.used..]))
  {
    hide ParseAll;
    assert out + [] == out;
    if |a| >= FieldsSize(rec.fields) {
      FixedParse(rec.fields, a);
      var one := RecParse(rec, a);
      PrependMore(out, used, one.val, one.used, RestParse(rec, a[one.used..]));
    }
  }

  /** One field of a record, in the two directions. */
  lemma FieldsStep(fs: seq<Field>, vs: seq<Val>, a: seq<octet>)
    requires |fs| == |vs|
    ensures fs == [] ==> FitsAll(fs, vs) && EncAll(fs, vs) == [] && ParseAll(fs, a) == Got([], 0)
    ensures fs != [] ==> (FitsAll(fs, vs) <==> Fits(fs[0], vs[0]) && FitsAll(fs[1..], vs[1..]))
    ensures fs != [] && FitsAll(fs, vs) ==> EncAll(fs, vs) == Enc(fs[0], vs[0]) + EncAll(fs[1..], vs[1..])
    ensures fs != [] ==>
      var r := Parse(fs[0], a);
      ParseAll(fs, a) == if r.Fail? then Fail(r.err) else Prepend([r.val], r.used, ParseAll(fs[1..], a[r.used..]))
  {
    hide Parse, Enc, Fits;
    if fs != [] {
      assert fs == [fs[0]] + fs[1..] && vs == [vs[0]] + vs[1..];
    }
  }

  lemma {:induction false} RecsEncSplit(rec: Rec, recs: seq<seq<Val>>, i: nat)
    requires RecsFit(rec, recs) && i <= |recs|
    ensures RecsFit(rec, recs[..i]) && RecsFit(rec, recs[i..])
    ensures RecsEnc(rec, recs) == RecsEnc(rec, recs[..i]) + RecsEnc(rec, recs[i..])
    decreases i
  {
    if i == 0 {
      assert recs[0..] == recs;
    } else {
      RecsEncSplit(rec, recs[1..], i - 1);
      assert recs[1..][..i - 1] == recs[..i][1..];
      assert recs[1..][i - 1..] == recs[i..];
      SplitThree(RecEnc(rec, recs[0]), RecsEnc(rec, recs[..i][1..]), RecsEnc(rec, recs[i..]));
    }
  }

  lemma RecsEncSnoc(rec: Rec, recs: seq<seq<Val>>, i: nat)
    requires i < |recs| && RecsFit(rec, recs[..i + 1])
    ensures RecsFit(rec, recs[..i]) && RecFits(rec, recs[i])
    ensures RecsEnc(rec, recs[..i + 1]) == RecsEnc(rec, recs[..i]) + RecEnc(rec, recs[i])
  {
    assert recs[..i + 1][i] == recs[i];
    RecsEncSplit(rec, recs[..i + 1], i);
    assert recs[..i + 1][..i] == recs[..i];
    assert recs[..i + 1][i..] == [recs[i]];
    assert RecsEnc(rec, [recs[i]]) == RecEnc(rec, recs[i]) + [];
  }

  lemma RecsFitSnoc(rec: Rec, recs: seq<seq<Val>>, i: nat)
    requires i < |recs| && RecsFit(rec, recs[..i]) && RecFits(rec, recs[i])
    ensures RecsFit(rec, recs[..i + 1])
  {
    assert recs[..i + 1] == recs[..i] + [recs[i]];
  }

  lemma RecsEncLonger(rec: Rec, recs: seq<seq<Val>>, i: nat)
    requires i < |recs| && RecsFit(rec, recs)
    ensures RecsFit(rec, recs[..i]) && RecFits(rec, recs[i])
    ensures |RecsEnc(rec, recs)| >= |RecsEnc(rec, recs[..i])| + |RecEnc(rec, recs[i])|
  {
    RecsEncSplit(rec, recs, i + 1);
    RecsEncSnoc(rec, recs, i);
  }

  class MsgProc {
    var build: bool
    var buf: array<octet>
    var cur: nat
    var left: nat
    var size: nat      // octets handled so far
    var err: Error

    predicate Valid()
      reads this
    {
      cur + left <= buf.Length
    }

    ghost function Ahead(): seq<octet>
      requires Valid()
      reads this, buf
    {
      buf[cur..cur + left]
    }

    constructor (build: bool, buf: array<octet>, cur: nat, left: nat)
      requires cur + left <= buf.Length
      ensures Valid() && this.build == build && this.buf == buf
      ensures this.cur == cur && this.left == left && size == 0 && err == TOO_SMALL
    {
      this.build, this.buf, this.cur, this.left, size, err := build, buf, cur, left, 0, TOO_SMALL;
    }

    /** The cursor has gone `n` octets ahead of an earlier state. */
    twostate predicate Moved(n: nat)
      reads this
    {
      && build == old(build) && buf == old(buf)
      && n <= old(left) && cur == old(cur) + n && left == old(left) - n && size == old(size) + n
    }

    method Move(n: nat)
      requires Valid() && n <= left
      modifies this`cur, this`left, this`size
      ensures Valid() && Moved(n)
    {
      cur := cur + n;
      left := left - n;
      size := size + n;
    }

    method Put(bs: seq<octet>)
      requires Valid() && |bs| <= left
      modifies this`cur, this`left, this`size, buf
      ensures Valid() && Moved(|bs|)
      ensures Wrote(old(buf[..]), old(cur), bs, buf[..])
    {
      forall i | 0 <= i < |bs| { buf[cur + i] := bs[i]; }
      assert buf[..] == old(buf[..])[..cur] + bs + old(buf[..])[cur + |bs|..];
      Move(|bs|);
    }

    method Take(n: nat) returns (bs: seq<octet>)
      requires Valid() && n <= left
      modifies this`cur, this`left, this`size
      ensures Valid() && Moved(n)
      ensures bs == old(Ahead()[..n]) && Ahead() == old(Ahead()[n..])
    {
      bs := buf[cur..cur + n];
      Move(n);
    }

    /** The effect of one build step: the octets of an encoding that fits the space left,
        or a failure that stays inside that space. */
    twostate predicate Built(failed: bool, fits: bool, bs: seq<octet>)
      reads this, buf
    {
      && Valid() && build && buf == old(buf)
      && Outcome(old(buf[..]), old(cur), old(left), failed, fits, bs, buf[..])
      && (if failed then err == old(err) || (err == VAL && !fits) else Moved(|bs|) && err == old(err))
    }

    /** The effect of reading `n` octets. */
    twostate predicate Taken(n: nat)
      reads this, buf
    {
      Valid() && !build && Moved(n) && buf[..] == old(buf[..]) && err == old(err)
    }

    /** The effect of one parse step. */
    twostate predicate Parsed<T>(failed: bool, val: T, r: Read<T>)
      reads this, buf
    {
      if failed then
        && Valid() && !build && buf == old(buf) && buf[..] == old(buf[..])
        && r.Fail? && err == if r.err == TOO_SMALL then old(err) else r.err
      else
        r.Got? && val == r.val && Taken(r.used)
    }

    /** `procB8` and `procBU`. */
    method ProcUnsigned(width: nat, v: nat) returns (failed: bool, w: nat)
      requires Valid() && (build ==> v < Pow256(width))
      modifies this`cur, this`left, this`size, buf
      ensures old(build) ==> Built(failed, true, BigEndian(v, width)) && w == v
      ensures !old(build) ==> Parsed(failed, Num(w), old(Parse(U(width), Ahead())))
    {
      w := v;
      if left < width { return true, w; }
      failed := false;
      if build {
        Put(BigEndian(v, width));
      } else {
        var bs := Take(width);
        w := FromBigEndian(bs);
      }
    }

    /** `procBN`: through the unsigned type of the same width. */
    method ProcSigned(width: nat, v: int) returns (failed: bool, w: int)
      requires Valid() && (build ==> SignedRange(v, width))
      modifies this`cur, this`left, this`size, buf
      ensures old(build) ==> Built(failed, true, BigEndian(ToUnsigned(v, width), width)) && w == v
      ensures !old(build) ==> Parsed(failed, Num(w), old(Parse(S(width), Ahead())))
    {
      w := v;
      var u := if build then ToUnsigned(v, width) else 0;
      failed, u := ProcUnsigned(width, u);
      if !build { w := ToSigned(u, width); }
    }

    method Proc48(v: nat) returns (failed: bool, w: nat)
      requires Valid() && (build ==> v < Pow256(8))
      modifies this`cur, this`left, this`size, this`err, buf
      ensures old(build) ==> Built(failed, v < Pow256(6), if v < Pow256(6) then Enc(U48, Num(v)) else []) && w == v
      ensures !old(build) ==> Parsed(failed, Num(w), old(Parse(U48, Ahead())))
    {
      Pow256Values();
      w := v;
      var high, low := 0, 0;
      if left < 6 { return true, w; }
      if build {
        if v > 0xffff_ffff_ffff {
          err := VAL;
          return true, w;
        }
        high := v / 0x1_0000_0000;
        low := v % 0x1_0000_0000;
      }
      ghost var b0, a0 := buf[..], Ahead();
      failed, high := ProcUnsigned(2, high);
      ghost var b1 := buf[..];
      failed, low := ProcUnsigned(4, low);
      if build {
        ThenRest(b0, old(cur), old(left), BigEndian(v / Pow256(4), 2), b1,
                 failed, true, BigEndian(v % Pow256(4), 4), buf[..], true, Enc(U48, Num(v)));
      } else {
        assert a0[2..][..4] == a0[2..6];
        w := low + high * 0x1_0000_0000;
      }
    }

    method ProcLe(v: nat) returns (failed: bool, w: nat)
      requires Valid() && (build ==> v < Pow256(8))
      modifies this`cur, this`left, this`size, buf
      ensures old(build) ==> Built(failed, true, LittleEndian(v, 8)) && w == v
      ensures !old(build) ==> Parsed(failed, Num(w), old(Parse(Le64, Ahead())))
    {
      w := v;
      if left < 8 { return true, w; }
      failed := false;
      if build {
        Put(LittleEndian(v, 8));
      } else {
        var bs := Take(8);
        w := FromLittleEndian(bs);
      }
    }

    /** `proc` of a string, a binary or an array of octets. On build the length is that of
        the value. */
    method ProcOctets(b: seq<octet>, len: nat) returns (failed: bool, w: seq<octet>)
      requires Valid()
      modifies this`cur, this`left, this`size, buf
      ensures old(build) ==> Built(failed, true, b) && w == b
      ensures !old(build) ==> Parsed(failed, Bytes(w), old(Parse(Oct(len), Ahead())))
    {
      w := b;
      var n := if build then |b| else len;
      if left < n { return true, w; }
      failed := false;
      if build { Put(b); } else { w := Take(n); }
    }

    /** A length of `width` octets followed by that many octets. */
    method ProcSized(width: nat, b: seq<octet>) returns (failed: bool, w: seq<octet>)
      requires Valid() && (build ==> |b| < Pow256(width))
      modifies this`cur, this`left, this`size, buf
      ensures old(build) ==> Built(failed, true, BigEndian(|b|, width) + b) && w == b
      ensures !old(build) ==>
        var a := old(Ahead());
        var r: Read<Val> :=
          if |a| < width || |a| - width < FromBigEndian(a[..width]) then Fail(TOO_SMALL)
          else var n := FromBigEndian(a[..width]); Got(Bytes(a[width..width + n]), width + n);
        Parsed(failed, Bytes(w), r)
    {
      hide BigEndian, FromBigEndian, Pow256, Outcome;
      w := b;
      ghost var b0, a0 := buf[..], Ahead();
      var len := if build then |b| else 0;
      failed, len := ProcUnsigned(width, len);
      ghost var b1 := buf[..];
      if failed {
        if build { FirstFails(b0, old(cur), old(left), true, BigEndian(|b|, width), b1, true, BigEndian(|b|, width) + b); }
        return;
      }
      if build { OutcomeFits(b0, old(cur), old(left), true, BigEndian(|b|, width), b1); }
      failed, w := ProcOctets(b, len);
      if build {
        ThenRest(b0, old(cur), old(left), BigEndian(|b|, width), b1,
                 failed, true, b, buf[..], true, BigEndian(|b|, width) + b);
      } else if !failed {
        assert a0[width..][..len] == a0[width..width + len];
      }
    }

    method ProcFlags(flags: nat, mask: nat) returns (failed: bool, w: nat)
      requires Valid() && (build ==> flags < 256)
      modifies this`cur, this`left, this`size, buf
      ensures old(build) ==> NormFlags(mask, flags) < 256 && Built(failed, true, [NormFlags(mask, flags)])
      ensures old(build) ==> w == NormFlags(mask, flags)
      ensures !old(build) ==> Parsed(failed, Num(w), old(Parse(Flags(mask), Ahead())))
    {
      w := flags;
      if build {
        BitAndBound(flags, mask);
        if mask > 1 { w := BitAnd(flags, mask); } else if flags > 0 { w := 1; }
        assert BigEndian(w, 1) == [w];
      }
      ghost var a0 := Ahead();
      failed, w := ProcUnsigned(1, w);
      if !build && !failed { OneOctet(a0); }
    }

    /** The text that is held already is looked at in both directions. */
    method ProcText(b: seq<octet>) returns (failed: bool, w: seq<octet>)
      requires Valid()
      modifies this`cur, this`left, this`size, buf
      ensures old(build) ==> Built(failed, |b| < 256, if |b| < 256 then [|b|] + b else []) && w == b
      ensures !old(build) ==> Parsed(failed, Bytes(w), if |b| < 256 then old(Parse(Text, Ahead())) else Fail(TOO_SMALL))
    {
      if |b| > 255 { return true, b; }
      ghost var a0 := Ahead();
      assert build ==> BigEndian(|b|, 1) == [|b|];
      failed, w := ProcSized(1, b);
      if !build && |a0| > 0 { OneOctet(a0); }
    }

    /** One member of a TLV, in either direction. On build it may be normalised in place. */
    method ProcField(f: Field, v: Val) returns (failed: bool, w: Val)
      requires Valid() && (build ==> Typed(f, v))
      modifies this`cur, this`left, this`size, this`err, buf
      ensures old(build) ==> Built(failed, Fits(f, v), if Fits(f, v) then Enc(f, v) else [])
      ensures old(build) && !failed ==> w == Norm(f, v)
      ensures !old(build) ==> Parsed(failed, w, old(Parse(f, Ahead())))
    {
      var n := if build && v.Num? then v.n else 0;
      var b := if build && v.Bytes? then v.b else [];
      w := v;
      match f
      case U(width) => failed, n := ProcUnsigned(width, n); w := Num(n);
      case S(width) => failed, n := ProcSigned(width, n); w := Num(n);
      case U48 => failed, n := Proc48(n); w := Num(n);
      case Le64 => failed, n := ProcLe(n); w := Num(n);
      case Oct(k) => failed, b := ProcOctets(b, k); w := Bytes(b);
      case Text => failed, b := ProcText(b); w := Bytes(b);
      case Blob => failed, b := ProcSized(2, b); w := Bytes(b);
      case Reserved =>
        assert BigEndian(0, 1) == [0];
        failed, n := ProcUnsigned(1, 0);
        w := Num(0);
      case Flags(mask) => failed, n := ProcFlags(n, mask); w := Num(n);
    }

    /** The members of a record, one after the other. */
    method ProcFields(fs: seq<Field>, vs: seq<Val>) returns (failed: bool, ws: seq<Val>)
      requires Valid() && |vs| == |fs| && (build ==> TypedAll(fs, vs))
      modifies this`cur, this`left, this`size, this`err, buf
      ensures old(build) ==> Built(failed, FitsAll(fs, vs), if FitsAll(fs, vs) then EncAll(fs, vs) else [])
      ensures !old(build) ==> Parsed(failed, ws, old(ParseAll(fs, Ahead())))
      decreases |fs|
    {
      hide Parse, ParseAll, Enc, EncAll, Fits, FitsAll, Outcome;
      ghost var b0 := buf[..];
      FieldsStep(fs, vs, Ahead());
      if fs == [] {
        StepNone(b0, cur, left);
        return false, [];
      }
      ghost var fits1, fits2 := Fits(fs[0], vs[0]), FitsAll(fs[1..], vs[1..]);
      ghost var first := if fits1 then Enc(fs[0], vs[0]) else [];
      ghost var second := if fits2 then EncAll(fs[1..], vs[1..]) else [];
      ghost var fits := FitsAll(fs, vs);
      ghost var all := if fits then EncAll(fs, vs) else [];
      var w, more;
      failed, w := ProcField(fs[0], vs[0]);
      ghost var b1 := buf[..];
      if failed {
        if build { FirstFails(b0, old(cur), old(left), fits1, first, b1, fits, all); }
        return failed, [];
      }
      SliceTail(b1, old(cur), cur + left, cur - old(cur));
      failed, more := ProcFields(fs[1..], vs[1..]);
      ws := [w] + more;
      if build {
        OutcomeFits(b0, old(cur), old(left), fits1, first, b1);
        ThenRest(b0, old(cur), old(left), first, b1, failed, fits2, second, buf[..], fits, all);
      }
    }

    /** A record; a self-sized one announces its length first and checks it on parse. */
    method ProcRec(rec: Rec, vs: seq<Val>) returns (failed: bool, ws: seq<Val>)
      requires Valid() && |vs| == |rec.fields| && (build ==> RecTyped(rec, vs))
      modifies this`cur, this`left, this`size, this`err, buf
      ensures old(build) ==> Built(failed, RecFits(rec, vs), if RecFits(rec, vs) then RecEnc(rec, vs) else [])
      ensures !old(build) ==> Parsed(failed, ws, old(RecParse(rec, Ahead())))
    {
      hide ParseAll, EncAll, FitsAll, Outcome;
      if !rec.selfSized {
        failed, ws := ProcFields(rec.fields, vs);
        return;
      }
      ghost var b0 := buf[..];
      ghost var fits := build && FitsAll(rec.fields, vs);
      ghost var all, body := if fits then RecEnc(rec, vs) else [], if fits then EncAll(rec.fields, vs) else [];
      var len := if build then RecordLength(rec, vs) else 0;
      ghost var head := BigEndian(len, 2);
      failed, len := ProcUnsigned(2, len);
      ghost var b1 := buf[..];
      if failed {
        if build { FirstFails(b0, old(cur), old(left), true, head, b1, fits, all); }
        return failed, [];
      }
      SliceTail(b1, old(cur), cur + left, 2);
      var start := size;
      failed, ws := ProcFields(rec.fields, vs);
      if build {
        ThenRest(b0, old(cur), old(left), head, b1, failed, fits, body, buf[..], fits, all);
      } else if !failed && len != 2 + (size - start) {
        err := SIZE_MISS;
        failed := true;
      }
    }

    /** `vector_f`: all records of a list on build, `count` records on parse. */
    method VectorF(rec: Rec, count: nat, recs: seq<seq<Val>>) returns (failed: bool, out: seq<seq<Val>>)
      requires Valid() && (build ==> RecsTyped(rec, recs))
      modifies this`cur, this`left, this`size, this`err, buf
      ensures old(build) ==> Built(failed, RecsFit(rec, recs), if RecsFit(rec, recs) then RecsEnc(rec, recs) else [])
      ensures !old(build) ==> Parsed(failed, out, old(CountedParse(rec, count, Ahead())))
    {
      if build {
        failed := BuildRecs(rec, recs);
        out := recs;
      } else {
        failed, out := ParseCounted(rec, count);
      }
    }

    /** `vector_o`: all records of a list on build, as many as are left on parse. */
    method VectorO(rec: Rec, recs: seq<seq<Val>>) returns (failed: bool, out: seq<seq<Val>>)
      requires Valid() && FixedRec(rec) && (build ==> RecsTyped(rec, recs))
      modifies this`cur, this`left, this`size, this`err, buf
      ensures old(build) ==> Built(failed, RecsFit(rec, recs), if RecsFit(rec, recs) then RecsEnc(rec, recs) else [])
      ensures !old(build) ==> Parsed(failed, out, old(RestParse(rec, Ahead())))
    {
      if build {
        failed := BuildRecs(rec, recs);
        out := recs;
      } else {
        failed, out := ParseRest(rec);
      }
    }

    method ParseCounted(rec: Rec, count: nat) returns (failed: bool, out: seq<seq<Val>>)
      requires Valid() && !build
      modifies this`cur, this`left, this`size, this`err, buf
      ensures Parsed(failed, out, old(CountedParse(rec, count, Ahead())))
    {
      hide RecParse, CountedParse, Prepend;
      var i := 0;
      out := [];
      ghost var r, used: nat := CountedParse(rec, count, Ahead()), 0;
      PrependNone(r);
      while i < count
        invariant i <= count && Taken(used)
        invariant r == Prepend(out, used, CountedParse(rec, count - i, Ahead()))
      {
        ghost var c := cur;
        CountedStep(rec, count - i, Ahead(), r, out, used);
        var one;
        failed, one := ProcRec(rec, seq(|rec.fields|, _ => Num(0)));
        if failed { return; }
        SliceTail(buf[..], c, cur + left, cur - c);
        out, i, used := out + [one], i + 1, used + (cur - c);
      }
      CountedStep(rec, 0, Ahead(), r, out, used);
      failed := false;
    }

    method ParseRest(rec: Rec) returns (failed: bool, out: seq<seq<Val>>)
      requires Valid() && !build && FixedRec(rec)
      modifies this`cur, this`left, this`size, this`err, buf
      ensures Parsed(failed, out, old(RestParse(rec, Ahead())))
    {
      hide RecParse, RestParse, Prepend, FixedRec, FieldsSize;
      out := [];
      ghost var r, used: nat := RestParse(rec, Ahead()), 0;
      PrependNone(r);
      while left >= FieldsSize(rec.fields)
        invariant Taken(used)
        invariant r == Prepend(out, used, RestParse(rec, Ahead()))
        decreases left
      {
        ghost var c := cur;
        RestStep(rec, Ahead(), r, out, used);
        var one;
        failed, one := ProcRec(rec, seq(|rec.fields|, _ => Num(0)));
        SliceTail(buf[..], c, cur + left, cur - c);
        out, used := out + [one], used + (cur - c);
      }
      RestStep(rec, Ahead(), r, out, used);
      failed := false;
    }

    /** The build half that the two list functions share. */
    method BuildRecs(rec: Rec, recs: seq<seq<Val>>) returns (failed: bool)
      requires Valid() && build && RecsTyped(rec, recs)
      modifies this`cur, this`left, this`size, this`err, buf
      ensures Built(failed, RecsFit(rec, recs), if RecsFit(rec, recs) then RecsEnc(rec, recs) else [])
    {
      hide RecFits, RecEnc, Outcome;
      var i := 0;
      ghost var b0 := buf[..];
      StepNone(b0, cur, left);
      while i < |recs|
        invariant 0 <= i <= |recs| && Valid() && build && buf == old(buf) && err == old(err)
        invariant RecsFit(rec, recs[..i]) && Moved(|RecsEnc(rec, recs[..i])|)
        invariant Outcome(b0, old(cur), old(left), false, true, RecsEnc(rec, recs[..i]), buf[..])
      {
        ghost var done, b1 := RecsEnc(rec, recs[..i]), buf[..];
        var ws;
        failed, ws := ProcRec(rec, recs[i]);
        ghost var fits1 := RecFits(rec, recs[i]);
        ghost var next := if fits1 then RecEnc(rec, recs[i]) else [];
        ThenRest(b0, old(cur), old(left), done, b1, failed, fits1, next, buf[..], fits1, done + next);
        if failed {
          ghost var fits := RecsFit(rec, recs);
          if fits { RecsEncLonger(rec, recs, i); }
          FirstFails(b0, old(cur), old(left), fits1, done + next, buf[..],
                     fits, if fits then RecsEnc(rec, recs) else []);
          return;
        }
        OutcomeFits(b0, old(cur), old(left), fits1, done + next, buf[..]);
        RecsFitSnoc(rec, recs, i);
        RecsEncSnoc(rec, recs, i);
        i := i + 1;
      }
      assert recs[..i] == recs;
      failed := false;
    }

    /** One item of a chain: a member, or a list with its count if it has one. */
    method ProcItem(item: Item, s: Slot) returns (failed: bool, out: Slot)
      requires Valid() && WellFormedItem(item) && (build ==> ItemTyped(item, s))
      modifies this`cur, this`left, this`size, this`err, buf
      ensures old(build) ==> Built(failed, ItemFits(item, s), if ItemFits(item, s) then ItemEnc(item, s) else [])
      ensures !old(build) ==> Parsed(failed, out, old(ItemParse(item, Ahead())))
    {
      hide Fits, Enc, Parse, RecsFit, RecsEnc, CountedParse, RestParse, Outcome, FixedRec;
      out := s;
      match item
      case One(f) =>
        var v;
        failed, v := ProcField(f, if s.Scalar? then s.v else Num(0));
        out := Scalar(v);
      case Counted(_, _, _) => failed, out := ProcCounted(item, s);
      case Rest(rec) =>
        var recs;
        failed, recs := VectorO(rec, if s.List? then s.recs else []);
        out := List(recs);
    }

    method ProcCounted(item: Item, s: Slot) returns (failed: bool, out: Slot)
      requires Valid() && item.Counted? && WellFormedItem(item) && (build ==> ItemTyped(item, s))
      modifies this`cur, this`left, this`size, this`err, buf
      ensures old(build) ==> Built(failed, ItemFits(item, s), if ItemFits(item, s) then ItemEnc(item, s) else [])
      ensures !old(build) ==> Parsed(failed, out, old(ItemParse(item, Ahead())))
    {
      hide RecsFit, RecsEnc, CountedParse, Outcome, FieldsLeast, BigEndian, FromBigEndian;
      out := s;
      var recs := if s.List? then s.recs else [];
      var width, rec := item.countWidth, item.rec;
      ghost var b0 := buf[..];
      ghost var fits := build && RecsFit(rec, recs);
      ghost var all, body := if fits then ItemEnc(item, s) else [], if fits then RecsEnc(rec, recs) else [];
      var count := if build then |recs| else 0;
      ghost var head := BigEndian(count, width);
      failed, count := ProcUnsigned(width, count);
      ghost var b1 := buf[..];
      if failed {
        if build { FirstFails(b0, old(cur), old(left), true, head, b1, fits, all); }
        return;
      }
      SliceTail(b1, old(cur), cur + left, width);
      failed, recs := VectorF(rec, LoopCount(item, count), recs);
      out := List(recs);
      if build {
        ThenRest(b0, old(cur), old(left), head, b1, failed, fits, body, buf[..], fits, all);
      }
    }

    /** A whole dataField: the first failing call ends the chain. */
    method ProcChain(c: Chain, ss: seq<Slot>) returns (failed: bool, out: seq<Slot>)
      requires Valid() && WellFormed(c) && (build ==> ChainTyped(c, ss))
      modifies this`cur, this`left, this`size, this`err, buf
      ensures old(build) ==> Built(failed, ChainFits(c, ss), if ChainFits(c, ss) then ChainEnc(c, ss) else [])
      ensures !old(build) ==> Parsed(failed, out, old(ChainParse(c, Ahead())))
      decreases c, 1
    {
      hide ItemFits, ItemEnc, ItemParse, Outcome;
      ghost var b0 := buf[..];
      if c.End? {
        StepNone(b0, cur, left);
        return false, [];
      }
      if !build {
        failed, out := ParseChain(c);
        return;
      }
      ghost var fits1, fits2 := ItemFits(c.item, ss[0]), ChainFits(c.next, ss[1..]);
      ghost var first := if fits1 then ItemEnc(c.item, ss[0]) else [];
      ghost var second := if fits2 then ChainEnc(c.next, ss[1..]) else [];
      ghost var fits := ChainFits(c, ss);
      ghost var all := if fits then ChainEnc(c, ss) else [];
      var s, more;
      failed, s := ProcItem(c.item, ss[0]);
      ghost var b1 := buf[..];
      if failed {
        FirstFails(b0, old(cur), old(left), fits1, first, b1, fits, all);
        return failed, [];
      }
      failed, more := ProcChain(c.next, ss[1..]);
      out := [s] + more;
      OutcomeFits(b0, old(cur), old(left), fits1, first, b1);
      ThenRest(b0, old(cur), old(left), first, b1, failed, fits2, second, buf[..], fits, all);
    }

    method ParseChain(c: Chain) returns (failed: bool, out: seq<Slot>)
      requires Valid() && WellFormed(c) && c.Proc? && !build
      modifies this`cur, this`left, this`size, this`err, buf
      ensures Parsed(failed, out, old(ChainParse(c, Ahead())))
      decreases c, 0
    {
      hide ItemFits, ItemEnc, ItemParse, Outcome;
      var s, more;
      failed, s := ProcItem(c.item, List([]));
      if failed { return failed, []; }
      SliceTail(buf[..], old(cur), cur + left, cur - old(cur));
      failed, more := ProcChain(c.next, []);
      out := [s] + more;
    }
  }

  /** `FaultRecord_t::size()`: what the length of a self-sized record is set to. */
  function RecordLength(rec: Rec, vs: seq<Val>): (n: nat)
    requires RecTyped(rec, vs)
    ensures n < Pow256(2)
    ensures rec.selfSized && FitsAll(rec.fields, vs) ==> n == 2 + |EncAll(rec.fields, vs)|
  {
    Pow256Values();
    var n := 2 + FieldsLength(rec.fields, vs);
    assert FitsAll(rec.fields, vs) ==> n == 2 + |EncAll(rec.fields, vs)| by {
      if FitsAll(rec.fields, vs) { FieldsLengthAgrees(rec.fields, vs); }
    }
    n % 0x1_0000
  }

  lemma OneOctet(a: seq<octet>)
    requires |a| >= 1
    ensures FromBigEndian(a[..1]) == a[0]
  {
    assert a[..1][..0] == [];
  }
}
