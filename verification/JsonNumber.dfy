/**
 JSON numbers: the automaton of `getNum`, the form of what it stores, and `getFrac`.
 */
module JsonNumber {
  import opened Octets
  import opened JsonText

  predicate IsDigit(c: char) { '0' <= c <= '9' }

  /** The end of the text, or a character that ends a number or a keyword. */
  predicate Delimits(s: text) {
    || Eof(s)
    || s[0] == ']' || s[0] == '}' || s[0] == ',' || s[0] == ' ' || s[0] == '\n' || s[0] == '\r' || s[0] == '\t'
  }

  /** A number as it is stored; `dot` and `e` are 0 if there is none. */
  datatype Number = Number(val: text, dot: nat, e: nat)

  datatype NumState = NumState(ret: text, dot: nat, e: nat, haveZero: bool, locZero: nat,
                               lastNotDigit: bool, zeroProhib: bool)

  /** The first character. Behind a minus sign the next one is looked at already. */
  function NumStart(s: text): Option<NumState> {
    if Eof(s) then None
    else if s[0] == '0' then Some(NumState("0", 0, 0, true, 0, false, true))
    else if s[0] == '-' then
      if Eof(s[1..]) then None
      else var zero := s[1] == '0'; Some(NumState("-", 0, 0, zero, if zero then 1 else 0, true, false))
    else if IsDigit(s[0]) then Some(NumState([s[0]], 0, 0, false, 0, false, false))
    else None
  }

  /** One round of the loop, on a character that does not end the number. */
  function NumStep(st: NumState, c: char): Option<NumState> {
    var loc := |st.ret|;
    if c == 'e' || c == 'E' then
      if st.e > 0 || st.lastNotDigit then None
      else Some(st.(ret := st.ret + [c], e := loc, haveZero := false, zeroProhib := true, lastNotDigit := true))
    else if c == '.' then
      if st.e > 0 || st.dot > 0 || st.lastNotDigit then None
      else Some(st.(ret := st.ret + [c], dot := loc, haveZero := false, zeroProhib := false, lastNotDigit := true))
    else if c == '+' || c == '-' then
      if st.e == 0 || loc != st.e + 1 then None
      else Some(st.(ret := if c == '-' then st.ret + [c] else st.ret, zeroProhib := true, lastNotDigit := true))
    else if !IsDigit(c) || (st.haveZero && loc > st.locZero) || (c == '0' && st.zeroProhib) then None
    else Some(st.(ret := st.ret + [c], zeroProhib := false, lastNotDigit := false))
  }

  function NumLoop(st: NumState, s: text): (r: Parsed<Number>)
    ensures r.POk? ==> |r.rest| <= |s|
    decreases |s|
  {
    if Delimits(s) then
      if st.lastNotDigit then PFail else POk(Number(st.ret, st.dot, st.e), s)
    else
      match NumStep(st, s[0])
      case None => PFail
      case Some(next) => NumLoop(next, s[1..])
  }

  /** `getNum`. */
  function GetNum(s: text): (r: Parsed<Number>)
    ensures r.POk? ==> |r.rest| < |s|
  {
    match NumStart(s)
    case None => PFail
    case Some(st) => NumLoop(st, s[1..])
  }

  // ---------------------------------------------------------------- the form of a number

  predicate AllDigits(v: text, lo: nat, hi: nat) { lo <= hi <= |v| && forall i :: lo <= i < hi ==> IsDigit(v[i]) }

  function Sign(v: text): nat { if v != [] && v[0] == '-' then 1 else 0 }

  function MantissaEnd(n: Number): nat { if n.e > 0 then n.e else |n.val| }

  function IntegerEnd(n: Number): nat { if n.dot > 0 then n.dot else MantissaEnd(n) }

  function ExponentStart(n: Number): nat {
    n.e + if n.e + 1 < |n.val| && n.val[n.e + 1] == '-' then 2 else 1
  }

  /** A number of section 6 of RFC 8259 whose exponent, if any, has neither a plus sign nor a
      leading zero, with `dot` and `e` at its '.' and its 'e'. */
  predicate NumberForm(n: Number) {
    var v, s, i, m, x := n.val, Sign(n.val), IntegerEnd(n), MantissaEnd(n), ExponentStart(n);
    && s < i <= m <= |v| && AllDigits(v, s, i) && (v[s] == '0' ==> i == s + 1)
    && (n.dot > 0 ==> n.dot + 1 < m && v[n.dot] == '.' && AllDigits(v, n.dot + 1, m))
    && (n.e > 0 ==> m < |v| && (v[m] == 'e' || v[m] == 'E') && x < |v| && AllDigits(v, x, |v|) && v[x] != '0')
  }

  // ---------------------------------------------------------------- what is stored has this form

  predicate PartForm(n: Number) {
    var v, s, i, m, x := n.val, Sign(n.val), IntegerEnd(n), MantissaEnd(n), ExponentStart(n);
    && v != [] && s <= i <= m <= |v| && AllDigits(v, s, i) && (s < i && v[s] == '0' ==> i == s + 1)
    && (n.dot > 0 || n.e > 0 ==> s < i)
    && (n.dot > 0 ==> n.dot < m && v[n.dot] == '.' && AllDigits(v, n.dot + 1, m) && (n.e > 0 ==> n.dot + 1 < m))
    && (n.e > 0 ==> m < |v| && (v[m] == 'e' || v[m] == 'E') && x <= |v| && AllDigits(v, x, |v|) && (x < |v| ==> v[x] != '0'))
  }

  /** What the variables tell about the characters stored so far; `next` is the rest. */
  predicate StateOk(st: NumState, next: text) {
    var n := Number(st.ret, st.dot, st.e);
    var s, i := Sign(st.ret), IntegerEnd(n);
    && PartForm(n)
    && (st.lastNotDigit <==> !IsDigit(st.ret[|st.ret| - 1]))
    && (st.dot == 0 && st.e == 0 ==> (st.haveZero <==> if s < i then st.ret[s] == '0' else next != [] && next[0] == '0'))
    && (st.haveZero ==> st.locZero == s)
    && (st.e > 0 && ExponentStart(n) == |st.ret| ==> st.zeroProhib)
  }

  lemma StartOk(s: text)
    requires NumStart(s).Some?
    ensures StateOk(NumStart(s).value, s[1..])
  {
  }

  lemma StepOk(st: NumState, s: text)
    requires s != [] && StateOk(st, s) && NumStep(st, s[0]).Some?
    ensures StateOk(NumStep(st, s[0]).value, s[1..])
  {
    var next := NumStep(st, s[0]).value;
    var c := s[0];
    if IsDigit(c) {
      DigitOk(st, s);
    } else if c == '+' {
    } else {
      SignOk(st, s);
    }
  }

  lemma DigitOk(st: NumState, s: text)
    requires s != [] && IsDigit(s[0]) && StateOk(st, s) && NumStep(st, s[0]).Some?
    ensures StateOk(NumStep(st, s[0]).value, s[1..])
  {
    if st.e > 0 { ExponentDigit(st, s); } else if st.dot > 0 { FractionDigit(st, s); } else { IntegerDigit(st, s); }
  }

  lemma IntegerDigit(st: NumState, s: text)
    requires s != [] && IsDigit(s[0]) && StateOk(st, s) && NumStep(st, s[0]).Some? && st.e == 0 && st.dot == 0
    ensures StateOk(NumStep(st, s[0]).value, s[1..])
  {
  }

  lemma FractionDigit(st: NumState, s: text)
    requires s != [] && IsDigit(s[0]) && StateOk(st, s) && NumStep(st, s[0]).Some? && st.e == 0 && st.dot > 0
    ensures StateOk(NumStep(st, s[0]).value, s[1..])
  {
  }

  lemma ExponentDigit(st: NumState, s: text)
    requires s != [] && IsDigit(s[0]) && StateOk(st, s) && NumStep(st, s[0]).Some? && st.e > 0
    ensures StateOk(NumStep(st, s[0]).value, s[1..])
  {
  }

  lemma SignOk(st: NumState, s: text)
    requires s != [] && !IsDigit(s[0]) && s[0] != '+' && StateOk(st, s) && NumStep(st, s[0]).Some?
    ensures StateOk(NumStep(st, s[0]).value, s[1..])
  {
    if s[0] == '-' { MinusOk(st, s); }
  }

  lemma MinusOk(st: NumState, s: text)
    requires s != [] && s[0] == '-' && StateOk(st, s) && NumStep(st, s[0]).Some?
    ensures StateOk(NumStep(st, s[0]).value, s[1..])
  {
  }

  lemma {:induction false} LoopForm(st: NumState, s: text)
    requires StateOk(st, s) && NumLoop(st, s).POk?
    ensures NumberForm(NumLoop(st, s).val)
    decreases |s|
  {
    if !Delimits(s) {
      StepOk(st, s);
      LoopForm(NumStep(st, s[0]).value, s[1..]);
    }
  }

  /** Every number that is accepted is stored in this form. */
  lemma AcceptedForm(s: text)
    requires GetNum(s).POk?
    ensures NumberForm(GetNum(s).val)
  {
    StartOk(s);
    LoopForm(NumStart(s).value, s[1..]);
  }

  // ---------------------------------------------------------------- a stored number is accepted

  /** The variables after the first `k` characters of a number. */
  function StateAt(n: Number, k: nat): NumState
    requires NumberForm(n) && 1 <= k <= |n.val|
  {
    var v, s := n.val, Sign(n.val);
    NumState(v[..k], if n.dot < k then n.dot else 0, if n.e < k then n.e else 0,
             v[s] == '0' && k <= IntegerEnd(n), if s == 1 && v[1] == '0' then 1 else 0,
             !IsDigit(v[k - 1]), (k == 1 && v[0] == '0') || (n.e > 0 && n.e < k <= ExponentStart(n)))
  }

  lemma StepAt(n: Number, k: nat)
    requires NumberForm(n) && 1 <= k < |n.val|
    ensures NumStep(StateAt(n, k), n.val[k]) == Some(StateAt(n, k + 1))
    ensures forall tail :: !Delimits(n.val[k..] + tail)
  {
    assert n.val[..k + 1] == n.val[..k] + [n.val[k]];
    if k == n.dot || (n.e > 0 && k == n.e) {
      MarkAt(n, k);
    } else if n.e > 0 && k > n.e {
      ExponentAt(n, k);
    } else {
      MantissaAt(n, k);
    }
  }

  lemma MarkAt(n: Number, k: nat)
    requires NumberForm(n) && 1 <= k < |n.val| && (k == n.dot || (n.e > 0 && k == n.e))
    requires n.val[..k + 1] == n.val[..k] + [n.val[k]]
    ensures NumStep(StateAt(n, k), n.val[k]) == Some(StateAt(n, k + 1))
    ensures forall tail :: !Delimits(n.val[k..] + tail)
  {
  }

  lemma ExponentAt(n: Number, k: nat)
    requires NumberForm(n) && 1 <= k < |n.val| && n.e > 0 && k > n.e
    requires n.val[..k + 1] == n.val[..k] + [n.val[k]]
    ensures NumStep(StateAt(n, k), n.val[k]) == Some(StateAt(n, k + 1))
    ensures forall tail :: !Delimits(n.val[k..] + tail)
  {
  }

  lemma MantissaAt(n: Number, k: nat)
    requires NumberForm(n) && 1 <= k < MantissaEnd(n) && k != n.dot
    requires n.val[..k + 1] == n.val[..k] + [n.val[k]]
    ensures NumStep(StateAt(n, k), n.val[k]) == Some(StateAt(n, k + 1))
    ensures forall tail :: !Delimits(n.val[k..] + tail)
  {
  }

  lemma {:induction false} LoopTo(n: Number, k: nat, j: nat, t: text)
    requires NumberForm(n) && 1 <= k <= j <= |n.val|
    ensures NumLoop(StateAt(n, k), n.val[k..j] + t) == NumLoop(StateAt(n, j), t)
    decreases j - k
  {
    hide NumStep, NumberForm, StateAt, NumLoop;
    var s := n.val[k..j] + t;
    if k == j {
      assert s == t;
    } else {
      StepAt(n, k);
      assert !Delimits(n.val[k..] + t);
      assert s[0] == n.val[k] && s[1..] == n.val[k + 1..j] + t;
      LoopStep(StateAt(n, k), s);
      LoopTo(n, k + 1, j, t);
    }
  }

  lemma LoopStep(st: NumState, s: text)
    requires !Delimits(s) && NumStep(st, s[0]).Some?
    ensures NumLoop(st, s) == NumLoop(NumStep(st, s[0]).value, s[1..])
  {
    hide NumStep;
  }

  lemma LastDigit(n: Number)
    requires NumberForm(n)
    ensures n.val != [] && IsDigit(n.val[|n.val| - 1])
    ensures StateAt(n, |n.val|).ret == n.val && StateAt(n, |n.val|).dot == n.dot && StateAt(n, |n.val|).e == n.e
  {
  }

  /** Every number of this form is accepted in front of a delimiter, and stored as it is. */
  lemma NumberBack(n: Number, tail: text)
    requires NumberForm(n) && Delimits(tail)
    ensures GetNum(n.val + tail) == POk(n, tail)
  {
    hide NumberForm, NumStart;
    LastDigit(n);
    StartAt(n, tail);
    var s := n.val + tail;
    assert s[1..] == n.val[1..|n.val|] + tail;
    LoopTo(n, 1, |n.val|, tail);
  }

  lemma StartAt(n: Number, tail: text)
    requires NumberForm(n)
    ensures NumStart(n.val + tail) == Some(StateAt(n, 1))
  {
    assert n.val[..1] == [n.val[0]];
  }

  // ---------------------------------------------------------------- what is accepted, exactly

  function Pluses(k: nat): (p: text)
    ensures |p| == k
  {
    seq(k, _ => '+')
  }

  /** A number with plus signs directly behind its 'e'. */
  function WithPluses(n: Number, k: nat): text {
    if n.e == 0 || n.e >= |n.val| then n.val else n.val[..n.e + 1] + Pluses(k) + n.val[n.e + 1..]
  }

  /** A plus sign behind the 'e' leaves the variables as they are. */
  lemma {:induction false} PlusLoop(n: Number, k: nat, t: text)
    requires NumberForm(n) && n.e > 0
    ensures NumLoop(StateAt(n, n.e + 1), Pluses(k) + t) == NumLoop(StateAt(n, n.e + 1), t)
    decreases k
  {
    var s, st := Pluses(k) + t, StateAt(n, n.e + 1);
    if k == 0 {
      assert s == t;
    } else {
      assert s[0] == '+' && s[1..] == Pluses(k - 1) + t;
      assert NumStep(st, '+') == Some(st);
      hide NumStep, NumberForm, StateAt;
      PlusLoop(n, k - 1, t);
    }
  }

  lemma PlusesBack(n: Number, k: nat, tail: text)
    requires NumberForm(n) && Delimits(tail)
    ensures GetNum(WithPluses(n, k) + tail) == POk(n, tail)
  {
    if n.e == 0 {
      NumberBack(n, tail);
    } else {
      var v, x, t := n.val, n.e + 1, n.val[n.e + 1..] + tail;
      hide NumberForm, NumStart, Delimits;
      ExponentInside(n);
      StartAt(n, []);
      var s := WithPluses(n, k) + tail;
      assert s == v[..1] + (v[1..x] + (Pluses(k) + t));
      SameStart(v, s);
      assert v + [] == v;
      LoopTo(n, 1, x, Pluses(k) + t);
      PlusLoop(n, k, t);
      LastDigit(n);
      assert t == v[x..|v|] + tail;
      LoopTo(n, x, |v|, tail);
      assert s[1..] == v[1..x] + (Pluses(k) + t);
    }
  }

  lemma ExponentInside(n: Number)
    requires NumberForm(n) && n.e > 0
    ensures n.e + 1 < |n.val|
  {
  }

  lemma SameStart(v: text, s: text)
    requires |v| > 1 && |s| > 1 && v[0] == s[0] && (v[0] == '-' ==> v[1] == s[1])
    ensures NumStart(v) == NumStart(s)
  {
  }

  /** What the loop has taken from the text: the characters stored, and `p` plus signs. */
  predicate Taken(st: NumState, p: nat, t: text) {
    && st.e < |st.ret| && (st.e == 0 ==> p == 0) && t == WithPluses(Number(st.ret, st.dot, st.e), p)
  }

  lemma StepTaken(st: NumState, p: nat, t: text, c: char)
    requires Taken(st, p, t) && NumStep(st, c).Some?
    ensures Taken(NumStep(st, c).value, if c == '+' then p + 1 else p, t + [c])
  {
    var next := NumStep(st, c).value;
    if c == '+' {
      assert t + [c] == WithPluses(Number(st.ret, st.dot, st.e), p + 1);
    } else if st.e > 0 {
      assert (st.ret + [c])[..st.e + 1] == st.ret[..st.e + 1];
      assert (st.ret + [c])[st.e + 1..] == st.ret[st.e + 1..] + [c];
      assert t + [c] == WithPluses(Number(next.ret, next.dot, next.e), p);
    } else if c == 'e' || c == 'E' {
      assert next.ret[..next.e + 1] == next.ret;
      assert t + [c] == next.ret + Pluses(0) + next.ret[next.e + 1..];
    }
  }

  lemma {:induction false} LoopTaken(st: NumState, p: nat, t: text, s: text) returns (k: nat)
    requires Taken(st, p, t) && NumLoop(st, s).POk?
    ensures var r := NumLoop(st, s); t + s == WithPluses(r.val, k) + r.rest && Delimits(r.rest)
    decreases |s|
  {
    hide NumStep, Taken, WithPluses;
    if Delimits(s) {
      k := p;
      TakenIs(st, p, t);
    } else {
      StepTaken(st, p, t, s[0]);
      assert t + s == t + [s[0]] + s[1..];
      k := LoopTaken(NumStep(st, s[0]).value, if s[0] == '+' then p + 1 else p, t + [s[0]], s[1..]);
    }
  }

  lemma TakenIs(st: NumState, p: nat, t: text)
    requires Taken(st, p, t)
    ensures t == WithPluses(Number(st.ret, st.dot, st.e), p)
  {
  }

  /** A text is accepted as a number if and only if it is the number that is stored, with any
      number of plus signs behind its 'e', in front of a delimiter. */
  lemma NumberExactly(s: text, n: Number, rest: text)
    ensures GetNum(s) == POk(n, rest)
       <==> NumberForm(n) && Delimits(rest) && exists k :: s == WithPluses(n, k) + rest
  {
    hide NumberForm, NumLoop, WithPluses;
    if GetNum(s) == POk(n, rest) {
      AcceptedForm(s);
      var st := NumStart(s).value;
      StartTaken(s);
      assert s == s[..1] + s[1..];
      var k := LoopTaken(st, 0, s[..1], s[1..]);
    }
    if k :| NumberForm(n) && Delimits(rest) && s == WithPluses(n, k) + rest { PlusesBack(n, k, rest); }
  }

  lemma StartTaken(s: text)
    requires NumStart(s).Some?
    ensures Taken(NumStart(s).value, 0, s[..1])
  {
  }

  /** A number of section 6 of RFC 8259, with its '.' and its 'e' at the positions given. */
  predicate RfcNumber(v: text, dot: nat, e: nat) {
    var n := Number(v, dot, e);
    var s, i, m, x := Sign(v), IntegerEnd(n), MantissaEnd(n), RfcExponent(v, e);
    && s < i <= m <= |v| && AllDigits(v, s, i) && (v[s] == '0' ==> i == s + 1)
    && (dot > 0 ==> dot + 1 < m && v[dot] == '.' && AllDigits(v, dot + 1, m))
    && (e > 0 ==> m < |v| && (v[m] == 'e' || v[m] == 'E') && x < |v| && AllDigits(v, x, |v|))
  }

  function RfcExponent(v: text, e: nat): nat {
    e + if e + 1 < |v| && (v[e + 1] == '-' || v[e + 1] == '+') then 2 else 1
  }

  /** What is accepted is a number of the RFC if and only if there is one plus sign at most,
      and no minus sign behind it. */
  lemma AcceptedIsRfc(n: Number, k: nat)
    requires NumberForm(n)
    ensures RfcNumber(WithPluses(n, k), n.dot, n.e)
       <==> n.e == 0 || k == 0 || (k == 1 && n.val[n.e + 1] != '-')
  {
    if n.e > 0 && k > 0 {
      var w, v := WithPluses(n, k), n.val;
      assert w[n.e + 1] == '+';
      if k > 1 { assert w[n.e + 2] == '+'; } else { OnePlus(n); }
    } else if n.e > 0 {
      assert WithPluses(n, k) == n.val;
    }
  }

  lemma OnePlus(n: Number)
    requires NumberForm(n) && n.e > 0
    ensures RfcNumber(WithPluses(n, 1), n.dot, n.e) <==> n.val[n.e + 1] != '-'
  {
    var w, v, e := WithPluses(n, 1), n.val, n.e;
    assert forall i :: 0 <= i <= e ==> w[i] == v[i];
    assert w[e + 1] == '+' && RfcExponent(w, e) == e + 2;
    assert forall i :: e + 1 <= i < |v| ==> w[i + 1] == v[i];
    if v[e + 1] != '-' {
      forall i | e + 2 <= i < |w| ensures IsDigit(w[i]) { assert w[i] == v[i - 1]; }
    } else {
      assert w[e + 2] == '-';
    }
  }

  /** A number of the RFC is accepted if and only if its exponent does not start with zero. */
  lemma RfcAccepted(v: text, dot: nat, e: nat, tail: text)
    requires RfcNumber(v, dot, e) && Delimits(tail)
    ensures GetNum(v + tail).POk? <==> (e > 0 ==> v[RfcExponent(v, e)] != '0')
  {
    if e == 0 {
      NumberBack(Number(v, dot, e), tail);
    } else if v[RfcExponent(v, e)] == '0' {
      RfcRefused(v, dot, e, tail);
    } else {
      RfcTaken(v, dot, e, tail);
    }
  }

  /** The number up to its exponent, a minus sign included, with other digits behind it. */
  function WithExponent(v: text, e: nat, digits: text): text
    requires e + 1 < |v|
  {
    v[..e + 1] + (if v[e + 1] == '-' then "-" else "") + digits
  }

  lemma ExponentForm(v: text, dot: nat, e: nat, digits: text)
    requires RfcNumber(v, dot, e) && e > 0 && digits != [] && AllDigits(digits, 0, |digits|) && digits[0] != '0'
    ensures NumberForm(Number(WithExponent(v, e, digits), dot, e))
  {
    var w := WithExponent(v, e, digits);
    assert forall i :: 0 <= i < e + 1 ==> w[i] == v[i];
    var x := ExponentStart(Number(w, dot, e));
    assert forall i :: x <= i < |w| ==> w[i] == digits[i - x];
  }

  /** The parts of a number with an exponent: up to the 'e', a plus sign, a minus sign, digits. */
  lemma ExponentParts(v: text, e: nat, digits: text)
    requires e + 1 < |v|
    ensures var w, m, k := WithExponent(v, e, digits), v[e + 1] == '-', v[e + 1] == '+';
      && w[..e + 1] == v[..e + 1] && w[e + 1..] == (if m then "-" else "") + digits
      && v == w[..e + 1] + Pluses(if k then 1 else 0) + (if m then "-" else "") + v[RfcExponent(v, e)..]
  {
    var p := Pluses(if v[e + 1] == '+' then 1 else 0) + if v[e + 1] == '-' then "-" else "";
    assert v == v[..e + 1] + v[e + 1..];
    assert v[e + 1..] == p + v[RfcExponent(v, e)..];
  }

  lemma RfcTaken(v: text, dot: nat, e: nat, tail: text)
    requires RfcNumber(v, dot, e) && Delimits(tail) && e > 0 && v[RfcExponent(v, e)] != '0'
    ensures GetNum(v + tail).POk?
  {
    var digits := v[RfcExponent(v, e)..];
    ExponentForm(v, dot, e, digits);
    ExponentParts(v, e, digits);
    hide RfcNumber, NumberForm, GetNum, Delimits, WithExponent, RfcExponent;
    var n, k := Number(WithExponent(v, e, digits), dot, e), if v[e + 1] == '+' then 1 else 0;
    ExponentInside(n);
    Grouped(n.val[..e + 1] + Pluses(k), if v[e + 1] == '-' then "-" else "", digits);
    PlusesBack(n, k, tail);
  }

  lemma Grouped(a: text, b: text, c: text)
    ensures a + (b + c) == a + b + c
  {
  }

  lemma RfcRefused(v: text, dot: nat, e: nat, tail: text)
    requires RfcNumber(v, dot, e) && e > 0 && v[RfcExponent(v, e)] == '0'
    ensures GetNum(v + tail).PFail?
  {
    var w, digits := WithExponent(v, e, "1"), v[RfcExponent(v, e)..];
    var n := Number(w, dot, e);
    var k, y := if v[e + 1] == '+' then 1 else 0, ExponentStart(n);
    ExponentForm(v, dot, e, "1");
    ExponentParts(v, e, "1");
    ExponentZero(n, digits + tail);
    hide RfcNumber, NumberForm, NumLoop, NumStart, StateAt, IsDigit, GetNum, WithExponent, RfcExponent;
    var minus := if v[e + 1] == '-' then "-" else "";
    assert w[e + 1] == if v[e + 1] == '-' then '-' else '1';
    assert y == e + 1 + |minus| && w[e + 1..y] == minus;
    RefusedBehind(n, e + 1, k, y, digits + tail);
    Grouped(w[..e + 1] + Pluses(k) + minus, digits, tail);
  }

  /** In front of the exponent the automaton does not take a zero. */
  lemma ExponentZero(n: Number, t: text)
    requires NumberForm(n) && n.e > 0 && t != [] && t[0] == '0'
    ensures NumLoop(StateAt(n, ExponentStart(n)), t) == PFail
  {
  }

  lemma RefusedBehind(n: Number, x: nat, k: nat, y: nat, t: text)
    requires NumberForm(n) && x == n.e + 1 && n.e > 0 && x <= y <= |n.val| && NumLoop(StateAt(n, y), t) == PFail
    ensures GetNum(n.val[..x] + Pluses(k) + n.val[x..y] + t) == PFail
  {
    hide NumberForm, NumLoop, NumStart, StateAt, IsDigit;
    var u := n.val[x..y] + t;
    var s := n.val[..x] + Pluses(k) + n.val[x..y] + t;
    LoopTo(n, 1, x, Pluses(k) + u);
    PlusLoop(n, k, u);
    LoopTo(n, x, y, t);
    StartAt(n, []);
    assert n.val + [] == n.val;
    ExponentInside(n);
    SameStart(n.val, s);
    assert s[1..] == n.val[1..x] + (Pluses(k) + u);
  }

  /** A text that is accepted against RFC 8259: plus signs may be repeated. */
  lemma TwoPluses()
    ensures GetNum("1e++5") == POk(Number("1e5", 0, 1), "") && !RfcNumber("1e++5", 0, 1)
  {
    var n := Number("1e5", 0, 1);
    assert NumberForm(n) && WithPluses(n, 2) == "1e++5";
    hide NumberForm, RfcNumber, GetNum;
    PlusesBack(n, 2, "");
    AcceptedIsRfc(n, 2);
    assert "1e++5" + "" == "1e++5";
  }

  /** Another one: a minus sign may follow a plus sign. */
  lemma PlusMinus()
    ensures GetNum("1e+-5") == POk(Number("1e-5", 0, 1), "") && !RfcNumber("1e+-5", 0, 1)
  {
    var n := Number("1e-5", 0, 1);
    assert NumberForm(n) && WithPluses(n, 1) == "1e+-5";
    hide NumberForm, RfcNumber, GetNum;
    PlusesBack(n, 1, "");
    AcceptedIsRfc(n, 1);
    assert "1e+-5" + "" == "1e+-5";
  }

  /** A number of RFC 8259 that is refused. */
  lemma ZeroExponent()
    ensures GetNum("1e05") == PFail && RfcNumber("1e05", 0, 1)
  {
    assert RfcNumber("1e05", 0, 1) && RfcExponent("1e05", 1) == 2;
    hide RfcNumber, GetNum;
    RfcAccepted("1e05", 0, 1, "");
    assert "1e05" + "" == "1e05";
  }

  // ---------------------------------------------------------------- integer and fraction

  function Ten(k: nat): (p: nat)
    ensures p > 0
  {
    if k == 0 then 1 else 10 * Ten(k - 1)
  }

  function Digit(c: char): nat { if IsDigit(c) then (c - '0') as int else 0 }

  /** The value of a sequence of decimal digits. */
  function Decimal(v: text): nat {
    if v == [] then 0 else 10 * Decimal(v[..|v| - 1]) + Digit(v[|v| - 1])
  }

  const INT64_MAX := 0x7fff_ffff_ffff_ffff
  const UINT64_MAX := 0xffff_ffff_ffff_ffff

  /** `strtoimax` on an integer of this form: it stops at the limits. */
  function ToInt64(v: text): int {
    if Sign(v) == 1 then
      var d := Decimal(v[1..]); if d > INT64_MAX + 1 then 0 - INT64_MAX - 1 else 0 - d
    else var d := Decimal(v); if d > INT64_MAX then INT64_MAX else d
  }

  function ToUint64(v: text): nat {
    var d := Decimal(v); if d > UINT64_MAX then UINT64_MAX else d
  }

  datatype Frac = Frac(integer: int, fraction: nat)

  /** `getFrac`: the part in front of the dot, and the digits behind it as a number with
      `size` digits. */
  function GetFrac(n: Number, size: nat): Option<Frac>
    requires NumberForm(n)
  {
    if n.e > 0 then None
    else if n.dot == 0 then Some(Frac(if n.val[0] == '0' then 0 else ToInt64(n.val), 0))
    else
      var digits := |n.val| - n.dot - 1;
      if digits > size then None
      else Some(Frac(ToInt64(n.val[..n.dot]), ToUint64(n.val[n.dot + 1..]) * Ten(size - digits) % (UINT64_MAX + 1)))
  }

  lemma {:induction false} DecimalAppend(a: text, b: text)
    ensures Decimal(a + b) == Decimal(a) * Ten(|b|) + Decimal(b)
    decreases |b|
  {
    if b == [] {
      assert a + b == a;
    } else {
      var n := |b| - 1;
      DecimalAppend(a, b[..n]);
      assert (a + b)[..|a| + n] == a + b[..n];
      TenTimes(Decimal(a), Ten(n), Decimal(b[..n]));
    }
  }

  lemma TenTimes(a: nat, t: nat, b: nat)
    ensures 10 * (a * t + b) == a * (10 * t) + 10 * b
  {
  }

  lemma {:induction false} TenAdd(a: nat, b: nat)
    ensures Ten(a + b) == Ten(a) * Ten(b)
  {
    if a > 0 {
      TenAdd(a - 1, b);
      assert 10 * (Ten(a - 1) * Ten(b)) == Ten(a) * Ten(b);
    }
  }

  lemma {:induction false} DecimalBound(v: text)
    ensures Decimal(v) < Ten(|v|)
    decreases |v|
  {
    if v != [] { DecimalBound(v[..|v| - 1]); }
  }

  /** The digits of a number without its dot. */
  function Undotted(n: Number): text
    requires n.dot < |n.val|
  {
    if n.dot == 0 then n.val else n.val[..n.dot] + n.val[n.dot + 1..]
  }

  function Decimals(n: Number): nat { if n.dot == 0 || n.dot >= |n.val| then 0 else |n.val| - n.dot - 1 }

  /** For a non-negative number with at most `k` decimals, the two results are the number
      times ten to the `k`, exactly, as long as they fit their 64 bits. */
  lemma FracExact(n: Number, k: nat)
    requires NumberForm(n) && n.e == 0 && Sign(n.val) == 0 && Decimals(n) <= k
    requires Decimal(n.val[..IntegerEnd(n)]) <= INT64_MAX
    requires n.dot > 0 ==> Decimal(n.val[n.dot + 1..]) * Ten(k - Decimals(n)) <= UINT64_MAX
    ensures var r := GetFrac(n, k);
      && r.Some? && r.value.fraction < Ten(k)
      && r.value.integer * Ten(k) + r.value.fraction == Decimal(Undotted(n)) * Ten(k - Decimals(n))
  {
    hide Decimal, Ten;
    if n.dot == 0 {
      WholeExact(n, k);
    } else {
      hide NumberForm;
      DottedExact(n, k);
    }
  }

  lemma WholeExact(n: Number, k: nat)
    requires NumberForm(n) && n.e == 0 && Sign(n.val) == 0 && n.dot == 0 && Decimal(n.val[..IntegerEnd(n)]) <= INT64_MAX
    ensures GetFrac(n, k) == Some(Frac(Decimal(n.val), 0))
  {
    assert n.val[..IntegerEnd(n)] == n.val;
    if n.val[0] == '0' { DecimalZero(n.val); }
  }

  lemma DecimalZero(v: text)
    requires v == "0"
    ensures Decimal(v) == 0
  {
    assert v[..0] == [];
    assert Decimal(v[..0]) == 0;
  }

  lemma DottedExact(n: Number, k: nat)
    requires NumberForm(n) && n.e == 0 && Sign(n.val) == 0 && 0 < n.dot < |n.val| && |n.val| - n.dot - 1 <= k
    requires Decimal(n.val[..n.dot]) <= INT64_MAX
    requires Decimal(n.val[n.dot + 1..]) * Ten(k - (|n.val| - n.dot - 1)) <= UINT64_MAX
    ensures var a, b, p := n.val[..n.dot], n.val[n.dot + 1..], Ten(k - (|n.val| - n.dot - 1));
      && GetFrac(n, k) == Some(Frac(Decimal(a), Decimal(b) * p)) && Decimal(b) * p < Ten(k)
      && Decimal(a) * Ten(k) + Decimal(b) * p == Decimal(a + b) * p
  {
    hide NumberForm, Decimal, Ten;
    var a, b := n.val[..n.dot], n.val[n.dot + 1..];
    Scaled(a, b, k - |b|);
    NoOverflow(Decimal(b), Ten(k - |b|));
  }

  /** The digits behind the dot, scaled, are below the unit, and add up with those before. */
  lemma Scaled(a: text, b: text, m: nat)
    ensures Decimal(b) * Ten(m) < Ten(|b| + m)
    ensures Decimal(a) * Ten(|b| + m) + Decimal(b) * Ten(m) == Decimal(a + b) * Ten(m)
  {
    DecimalAppend(a, b);
    DecimalBound(b);
    TenAdd(|b|, m);
    hide Decimal, Ten;
    ScaledSum(Decimal(a), Ten(|b|), Decimal(b), Ten(m));
    UnderScaled(Decimal(b), Ten(|b|), Ten(m));
  }

  lemma ScaledSum(a: nat, t: nat, b: nat, p: nat)
    ensures (a * t + b) * p == a * (t * p) + b * p
  {
  }

  lemma UnderScaled(b: nat, t: nat, p: nat)
    requires b < t && p > 0
    ensures b * p < t * p
  {
  }

  lemma NoOverflow(b: nat, p: nat)
    requires p > 0 && b * p <= UINT64_MAX
    ensures b <= UINT64_MAX && b * p % (UINT64_MAX + 1) == b * p
  {
    assert b <= b * p;
  }
}
