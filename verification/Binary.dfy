/**
 `Binary`: a growable buffer of octets. `buf` is the allocated memory, of which the
 first `size` octets are in use; a moved-out object has no memory.
 */
module BinaryBuffer {
  import opened Octets
  import opened Base64

  const MIN_ALLOC := 32

  /** The allocation `iResize` asks for. */
  function AllocSize(n: nat): (r: nat)
    ensures r >= n
  {
    if n <= MIN_ALLOC then MIN_ALLOC else n + MIN_ALLOC - (n - 1) % MIN_ALLOC - 1
  }

  /** It is the smallest positive multiple of 32 that is large enough. */
  lemma AllocSizeLeast(n: nat, m: nat)
    requires m > 0 && m % MIN_ALLOC == 0 && m >= n
    ensures AllocSize(n) % MIN_ALLOC == 0 && MIN_ALLOC <= AllocSize(n) <= m
  {
    var q, k := (n - 1) / 32, m / 32;
    assert n > 32 ==> AllocSize(n) == 32 * q + 32;
    assert n > 32 ==> 32 * q < n <= 32 * k;
  }

  // ---------------------------------------------------------------- the memory as a value

  /** The allocated octets, of which the first `size` are in use. */
  datatype Memory = Memory(cells: seq<octet>, size: nat)

  predicate Sound(m: Memory) { m.size <= |m.cells| }

  function Zeros(n: nat): (z: seq<octet>)
    ensures |z| == n
  {
    seq(n, _ => 0)
  }

  function Reserved(m: Memory, n: nat): (r: Memory)
    requires Sound(m)
    ensures Sound(r) && n <= |r.cells| && r.size == m.size && r.cells[..m.size] == m.cells[..m.size]
  {
    if n <= |m.cells| && m.cells != [] then m
    else Memory(m.cells[..m.size] + Zeros(AllocSize(n) - m.size), m.size)
  }

  /** The octets in use stay where they are, and so does the rest unless memory is new. */
  lemma ReservedAt(m: Memory, n: nat, i: nat)
    requires Sound(m) && i < |Reserved(m, n).cells|
    ensures Reserved(m, n).cells[i] == if i < m.size || (i < |m.cells| && n <= |m.cells|) then m.cells[i] else 0
  {
    assert i < m.size ==> Reserved(m, n).cells[..m.size][i] == m.cells[..m.size][i];
  }

  datatype Call =
    | SetBin(b: seq<octet>)
    | SetAt(position: nat, value: octet)
    | Resize(length: nat)
    | Clear
    | Append(more: seq<octet>)

  function Apply(m: Memory, call: Call): (r: Memory)
    requires Sound(m)
    ensures Sound(r)
  {
    match call
    case SetBin(b) => if b == [] then m.(size := 0) else Memory(b + Reserved(m, |b|).cells[|b|..], |b|)
    case SetAt(at, v) => Memory(Reserved(m, at + 1).cells[at := v], if m.size < at + 1 then at + 1 else m.size)
    case Resize(n) =>
      if n == 0 then Memory(Zeros(|m.cells|), 0)
      else var g := Reserved(m, n).cells; Memory(g[..n] + Zeros(|g| - n), n)
    case Clear => Memory(Zeros(|m.cells|), 0)
    case Append(b) =>
      if b == [] then m
      else var g, n := Reserved(m, m.size + |b|).cells, m.size; Memory(g[..n] + b + g[n + |b|..], n + |b|)
  }

  lemma AppendedContents(m: Memory, b: seq<octet>)
    requires Sound(m)
    ensures var r := Apply(m, Append(b)); r.cells[..r.size] == m.cells[..m.size] + b
  {
    hide Reserved;
    var g := Reserved(m, m.size + |b|).cells;
    assert b == [] ==> m.cells[..m.size] + b == m.cells[..m.size];
    assert (g[..m.size] + b + g[m.size + |b|..])[..m.size + |b|] == g[..m.size] + b;
  }

  predicate ZeroFrom(m: Memory, lo: nat, hi: nat) { forall i :: lo <= i < hi && i < |m.cells| ==> m.cells[i] == 0 }

  /** The memory behind the octets in use is zero. */
  predicate Clean(m: Memory) { ZeroFrom(m, m.size, |m.cells|) }

  /** The octets that a positional set adds in front of its own are zero if and only if the
      memory is new, or they were zero behind the octets in use. */
  lemma GapExactly(m: Memory, position: nat, value: octet)
    requires Sound(m)
    ensures ZeroFrom(Apply(m, SetAt(position, value)), m.size, position)
       <==> position >= |m.cells| || ZeroFrom(m, m.size, position)
  {
    var r := Apply(m, SetAt(position, value));
    if position < |m.cells| {
      assert r.cells == m.cells[position := value];
      if ZeroFrom(r, m.size, position) {
        forall i | m.size <= i < position ensures m.cells[i] == 0 { assert r.cells[i] == m.cells[i]; }
      }
    }
  }

  /** Every call keeps clean memory clean, but for taking over fewer octets than are in use;
      that keeps it clean if and only if the octets left behind are zero. */
  lemma CleanStep(m: Memory, call: Call)
    requires Sound(m) && Clean(m)
    ensures Clean(Apply(m, call)) <==> call.SetBin? ==> ZeroFrom(m, |call.b|, m.size)
  {
    if call.SetBin? { SetBinClean(m, call.b); } else { OthersClean(m, call); }
  }

  lemma SetBinClean(m: Memory, b: seq<octet>)
    requires Sound(m) && Clean(m)
    ensures Clean(Apply(m, SetBin(b))) <==> ZeroFrom(m, |b|, m.size)
  {
    var r, n := Apply(m, SetBin(b)), |b|;
    if n <= |m.cells| {
      assert r.cells == b + m.cells[n..];
      assert forall i :: n <= i < |m.cells| ==> r.cells[i] == m.cells[i];
    }
    if Clean(r) {
      forall i | n <= i < m.size ensures m.cells[i] == 0 { assert r.cells[i] == 0; }
    }
  }

  lemma OthersClean(m: Memory, call: Call)
    requires Sound(m) && Clean(m) && !call.SetBin?
    ensures Clean(Apply(m, call))
  {
    hide Reserved;
    var r := Apply(m, call);
    var n := match call case SetAt(at, _) => at + 1 case Append(b) => m.size + |b| case Resize(k) => k case _ => 0;
    forall i | r.size <= i < |r.cells| ensures r.cells[i] == 0 {
      if i < |Reserved(m, n).cells| { ReservedAt(m, n, i); }
    }
  }

  function Run(m: Memory, calls: seq<Call>): (r: Memory)
    requires Sound(m)
    ensures Sound(r)
    decreases |calls|
  {
    if calls == [] then m else Run(Apply(m, calls[0]), calls[1..])
  }

  /** A call of the run takes over fewer octets than are in use. */
  predicate Shortens(m: Memory, calls: seq<Call>)
    requires Sound(m)
    decreases |calls|
  {
    calls != [] && ((calls[0].SetBin? && |calls[0].b| < m.size) || Shortens(Apply(m, calls[0]), calls[1..]))
  }

  /** Whatever was called before, the gap of a positional set is zero as long as no call took
      over fewer octets than were in use. */
  lemma {:induction false} RunGaps(m: Memory, calls: seq<Call>, position: nat, value: octet)
    requires Sound(m) && Clean(m) && !Shortens(m, calls)
    ensures var r := Run(m, calls); Clean(r) && ZeroFrom(Apply(r, SetAt(position, value)), r.size, position)
    decreases |calls|
  {
    hide Apply, ZeroFrom;
    if calls == [] {
      GapExactly(m, position, value);
      CleanPart(m, position);
    } else {
      CleanStep(m, calls[0]);
      if calls[0].SetBin? { NothingBetween(m, |calls[0].b|, m.size); }
      RunGaps(Apply(m, calls[0]), calls[1..], position, value);
    }
  }

  lemma CleanPart(m: Memory, position: nat)
    requires Clean(m)
    ensures position < |m.cells| ==> ZeroFrom(m, m.size, position)
  {
  }

  lemma NothingBetween(m: Memory, lo: nat, hi: nat)
    requires hi <= lo
    ensures ZeroFrom(m, lo, hi)
  {
  }

  class Binary {
    var buf: array<octet>
    var size: nat

    predicate Valid()
      reads this
    {
      size <= buf.Length
    }

    ghost function Contents(): seq<octet>
      requires Valid()
      reads this, buf
    {
      buf[..size]
    }

    lemma InUse()
      requires Valid()
      ensures Contents() == State().cells[..size]
    {
    }

    /** All that is allocated, the octets behind the contents included. */
    ghost function State(): (m: Memory)
      requires Valid()
      reads this, buf
      ensures Sound(m)
    {
      Memory(buf[..], size)
    }

    constructor ()
      ensures Valid() && Contents() == [] && fresh(buf) && State() == Memory(Zeros(MIN_ALLOC), 0)
    {
      buf := new octet[MIN_ALLOC](_ => 0);
      size := 0;
    }

    /** Room for `n` octets: nothing moves if it is there, otherwise new memory that holds
        the octets in use, and zeros behind them. */
    method Reserve(n: nat)
      requires Valid()
      modifies this`buf
      ensures Valid() && Contents() == old(Contents()) && n <= buf.Length
      ensures if n <= old(buf.Length) && old(buf.Length) > 0 then buf == old(buf)
              else fresh(buf) && buf.Length == AllocSize(n)
      ensures State() == Reserved(old(State()), n)
    {
      if n <= buf.Length && buf.Length > 0 { return; }
      var was, used := buf, size;
      var more := new octet[AllocSize(n)](_ => 0);
      assert used <= was.Length <= more.Length;
      forall i | 0 <= i < used { more[i] := was[i]; }
      assert more[..used] == was[..used];
      buf := more;
      assert buf[..] == was[..used] + Zeros(AllocSize(n) - used);
    }

    method SetBin(b: seq<octet>)
      requires Valid()
      modifies this, buf
      ensures Valid() && Contents() == b
      ensures if |b| <= old(buf.Length) then buf == old(buf) else fresh(buf)
      ensures State() == Apply(old(State()), Call.SetBin(b))
    {
      if |b| == 0 {
        size := 0;
        return;
      }
      Reserve(|b|);
      ghost var g := buf[..];
      size := |b|;
      forall i | 0 <= i < |b| { buf[i] := b[i]; }
      assert buf[..] == b + g[|b|..];
    }

    /** One octet at a position; all octets in use stay. The octets of a gap are those that
        are in the memory, and zero in new memory. */
    method SetAt(position: nat, value: octet)
      requires Valid()
      modifies this, buf
      ensures Valid() && size == if position < old(size) then old(size) else position + 1
      ensures if position < old(buf.Length) then buf == old(buf) else fresh(buf)
      ensures buf[position] == value
      ensures forall i :: 0 <= i < old(size) && i != position ==> buf[i] == old(buf[i])
      ensures forall i :: old(size) <= i < position ==> buf[i] == if i < old(buf.Length) && position < old(buf.Length) then old(buf[i]) else 0
      ensures State() == Apply(old(State()), Call.SetAt(position, value))
    {
      hide Reserved;
      ghost var m := State();
      Reserve(position + 1);
      ghost var g := buf[..];
      forall i | 0 <= i < |g|
        ensures g[i] == if i < m.size || (i < |m.cells| && position < |m.cells|) then m.cells[i] else 0
      {
        ReservedAt(m, position + 1, i);
      }
      size := if size < position + 1 then position + 1 else size;
      buf[position] := value;
      assert buf[..] == g[position := value];
    }

    method Clear()
      requires Valid()
      modifies this, buf
      ensures Valid() && Contents() == [] && buf == old(buf)
      ensures State() == Apply(old(State()), Call.Clear)
    {
      forall i | 0 <= i < buf.Length { buf[i] := 0; }
      size := 0;
      assert buf[..] == Zeros(buf.Length);
    }

    method Resize(length: nat)
      requires Valid()
      modifies this, buf
      ensures Valid() && size == length && (buf == old(buf) || fresh(buf))
      ensures length <= old(size) ==> Contents() == old(Contents())[..length]
      ensures length >= old(size) ==> Contents()[..old(size)] == old(Contents())
      ensures State() == Apply(old(State()), Call.Resize(length))
    {
      hide Reserved;
      if length == 0 {
        Clear();
        return;
      }
      ghost var m := State();
      Reserve(length);
      ghost var g := buf[..];
      assert g[..m.size] == m.cells[..m.size];
      forall i | length <= i < buf.Length { buf[i] := 0; }
      size := length;
      assert buf[..] == g[..length] + Zeros(|g| - length);
    }

    method AppendOctet(x: octet)
      requires Valid()
      modifies this, buf
      ensures Valid() && Contents() == old(Contents()) + [x]
      ensures buf == old(buf) || fresh(buf)
      ensures State() == Apply(old(State()), Call.Append([x]))
    {
      hide Reserved, Contents;
      InUse();
      ghost var m := State();
      Reserve(size + 1);
      ghost var g, n := buf[..], size;
      buf[size] := x;
      size := size + 1;
      assert buf[..] == g[..n] + [x] + g[n + 1..];
      assert State() == Apply(m, Call.Append([x]));
      hide Apply;
      AppendedContents(m, [x]);
      InUse();
    }

    /** Concatenation, also of a binary with itself. */
    method Append(rhs: Binary)
      requires Valid() && rhs.Valid() && (rhs == this || rhs.buf != buf)
      modifies this, buf
      ensures Valid() && Contents() == old(Contents()) + old(rhs.Contents())
      ensures rhs != this ==> rhs.Valid() && rhs.Contents() == old(rhs.Contents())
      ensures buf == old(buf) || fresh(buf)
      ensures State() == Apply(old(State()), Call.Append(old(rhs.Contents())))
    {
      hide Reserved;
      if rhs.size == 0 { return; }
      ghost var c, d := Contents(), rhs.Contents();
      Reserve(size + rhs.size);
      var bs := rhs.buf[..rhs.size];
      assert bs == d;
      Store(bs);
    }

    /** `memcpy` behind the octets in use. */
    method Store(bs: seq<octet>)
      requires Valid() && size + |bs| <= buf.Length
      modifies this`size, buf
      ensures Valid() && Contents() == old(Contents()) + bs
      ensures State() == (var g, n := old(buf[..]), old(size); Memory(g[..n] + bs + g[n + |bs|..], n + |bs|))
    {
      forall i | 0 <= i < |bs| { buf[size + i] := bs[i]; }
      size := size + |bs|;
      assert buf[..] == old(buf[..size]) + bs + old(buf[..])[size..];
    }

    /** Base64 text is taken as a whole or the object stays as it was. */
    method FromBase64(s: seq<char>, pad: bool) returns (ok: bool)
      requires Valid()
      modifies this, buf
      ensures Valid() && ok == Decode(s, pad).Some?
      ensures ok ==> Contents() == Decode(s, pad).value
      ensures !ok ==> buf == old(buf) && size == old(size) && buf[..] == old(buf[..])
    {
      if s == [] {
        Clear();
        return true;
      }
      var id;
      ok, id := DecodeText(s, pad);
      if ok { SetBin(id.buf[..id.size]); }
    }

    method AppendThree(three: seq<octet>, n: nat)
      requires Valid() && n <= |three|
      modifies this, buf
      ensures Valid() && Contents() == old(Contents()) + three[..n]
      ensures buf == old(buf) || fresh(buf)
    {
      var i := 0;
      while i < n
        invariant Valid() && i <= n && (buf == old(buf) || fresh(buf))
        invariant Contents() == old(Contents()) + three[..i]
      {
        AppendOctet(three[i]);
        assert three[..i + 1] == three[..i] + [three[i]];
        i := i + 1;
      }
    }

    method ToBase64(pad: bool, v62: char, v63: char) returns (ret: seq<char>)
      requires Valid()
      ensures ret == Encode(Contents(), pad, v62, v63)
    {
      hide ToSextets, Symbols, Group, Padding;
      if size == 0 { return EncodeNothing(pad, v62, v63); }
      var left, cur := size, 0;
      ret := EncodeNothing(false, v62, v63);
      ghost var c := Contents();
      assert c[..0] == [];
      while left > 3
        invariant 1 <= left && cur + left == size && cur % 3 == 0
        invariant ret == Symbols(ToSextets(c[..cur]), v62, v63)
      {
        var g := Group(buf[cur], buf[cur + 1], buf[cur + 2]);
        EncodeStep(c, cur, 3, v62, v63);
        ret := ret + Symbols(g[..4], v62, v63);
        cur, left := cur + 3, left - 3;
      }
      var v1, v2 := if left > 1 then buf[cur + 1] else 0, if left > 2 then buf[cur + 2] else 0;
      var g := Group(buf[cur], v1, v2);
      EncodeStep(c, cur, left, v62, v63);
      assert c[..cur + left] == c;
      ret := ret + Symbols(g[..left + 1], v62, v63);
      PaddingOfGroups(cur, left);
      if pad { ret := ret + Padding(left); }
    }
  }

  /** A run with a gap that is not zero: the octets of longer contents show up again. */
  method StaleGap(x: octet) returns (id: Binary)
    ensures id.Valid() && id.Contents() == [9, 2, x]
  {
    id := new Binary();
    id.SetBin([1, 2, 3]);
    id.SetBin([9]);
    id.SetAt(2, x);
    assert id.Contents()[1] == id.buf[1] == 2;
  }

  lemma PaddingOfGroups(cur: nat, left: nat)
    requires cur % 3 == 0
    ensures Padding(cur + left) == Padding(left)
  {
    assert (cur + left) % 3 == left % 3;
  }

  function EncodeNothing(pad: bool, v62: char, v63: char): (s: seq<char>)
    ensures s == "" == Encode([], pad, v62, v63) && s == Symbols(ToSextets([]), v62, v63)
  {
    ""
  }

  /** The loop of `fromBase64`, into an object of its own. */
  method DecodeText(s: seq<char>, pad: bool) returns (ok: bool, id: Binary)
    requires s != []
    ensures fresh(id) && fresh(id.buf) && id.Valid()
    ensures ok == Decode(s, pad).Some? && (ok ==> id.Contents() == Decode(s, pad).value)
  {
    hide Scan, ToOctets, Three;
    var len, cur, safe := |s|, 0, FRESH;
    id := new Binary();
    ghost var vs: seq<sextet> := [];
    ScanNothing(s);
    var a;
    while len > 4
      invariant 1 <= len && cur + len == |s| && cur % 4 == 0 && |vs| == cur
      invariant id.Valid() && fresh(id) && fresh(id.buf)
      invariant Scan(s[..cur], FRESH) == Took(vs, safe) && id.Contents() == ToOctets(vs)
    {
      ok, a, safe := ReadSymbols(s, cur, 4, safe, vs);
      if !ok {
        ScanPrefix(s, cur + 4, pad);
        return;
      }
      GroupOctets(vs, a);
      vs := vs + a;
      id.AppendThree(Three(a[0], a[1], a[2], a[3]), 3);
      cur, len := cur + 4, len - 4;
    }
    if len < 2 || (pad && len != 4) { return false, id; }
    if len == 4 && s[cur + 3] == '=' { len := len - 1; }
    if len == 3 && s[cur + 2] == '=' { len := len - 1; }
    BodyEnds(s, cur, len);
    ok, a, safe := ReadSymbols(s, cur, len, safe, vs);
    if !ok { return; }
    GroupOctets(vs, a);
    id.AppendThree(Three(a[0], a[1], if len > 2 then a[2] else 0, if len > 3 then a[3] else 0), len - 1);
  }

  lemma ScanNothing(s: seq<char>)
    ensures Scan(s[..0], FRESH) == Took([], FRESH) && ToOctets([]) == []
  {
    assert s[..0] == [];
  }

  lemma GroupOctets(vs: seq<sextet>, a: seq<sextet>)
    requires |vs| % 4 == 0 && 2 <= |a| <= 4
    ensures ToOctets(vs + a) == ToOctets(vs)
      + Three(a[0], a[1], if |a| > 2 then a[2] else 0, if |a| > 3 then a[3] else 0)[..|a| - 1]
  {
    ToOctetsAppend(vs, a);
  }

  lemma BodyEnds(s: seq<char>, cur: nat, len: nat)
    requires cur % 4 == 0 && cur < |s| <= cur + 4 && |s| % 4 != 1 && 2 <= len
    requires var n := |s| - cur;
      len == if n == 4 && s[cur + 3] == '=' then (if s[cur + 2] == '=' then 2 else 3)
             else if n == 3 && s[cur + 2] == '=' then 2 else n
    ensures Body(s) == s[..cur + len]
  {
  }

  /** The symbols of a group, in order; the alphabet is checked along the way. */
  method ReadSymbols(s: seq<char>, at: nat, n: nat, safe: Safe, ghost before: seq<sextet>)
    returns (ok: bool, a: seq<sextet>, last: Safe)
    requires at + n <= |s| && Scan(s[..at], FRESH) == Took(before, safe)
    ensures ok ==> |a| == n && Scan(s[..at + n], FRESH) == Took(before + a, last)
    ensures !ok ==> Scan(s[..at + n], FRESH).Refused?
  {
    hide Scan, ParseSymbol;
    a, last := [], safe;
    assert before + [] == before;
    for i := 0 to n
      invariant |a| == i && Scan(s[..at + i], FRESH) == Took(before + a, last)
    {
      var one := ParseSymbol(s[at + i], last);
      ScanNext(s, at + i, before + a, last);
      if one.Refused? {
        assert s[..at + n] == s[..at + i + 1] + s[at + i + 1..at + n];
        ScanAppend(s[..at + i + 1], s[at + i + 1..at + n], FRESH);
        return false, a, last;
      }
      assert before + a + [one.val] == before + (a + [one.val]);
      a, last := a + [one.val], one.safe;
    }
    ok := true;
  }

  lemma ScanOne(c: char, safe: Safe)
    ensures var one := ParseSymbol(c, safe);
      Scan([c], safe) == if one.Refused? then Refused else Took([one.val], one.safe)
  {
    hide ParseSymbol;
    var one := ParseSymbol(c, safe);
    assert [c][1..] == [] && [c][0] == c;
    if one.Took? {
      var none: seq<sextet> := [];
      assert Scan([c][1..], one.safe) == Took(none, one.safe) && [one.val] + none == [one.val];
    }
  }

  lemma ScanNext(s: seq<char>, i: nat, vs: seq<sextet>, safe: Safe)
    requires i < |s| && Scan(s[..i], FRESH) == Took(vs, safe)
    ensures var one := ParseSymbol(s[i], safe);
      Scan(s[..i + 1], FRESH) == if one.Refused? then Refused else Took(vs + [one.val], one.safe)
  {
    hide ParseSymbol;
    assert s[..i + 1] == s[..i] + [s[i]];
    ScanAppend(s[..i], [s[i]], FRESH);
    ScanOne(s[i], safe);
  }

  lemma ScanPrefix(s: seq<char>, n: nat, pad: bool)
    requires n <= |s| - 1 && n % 4 == 0 && Scan(s[..n], FRESH).Refused?
    ensures Decode(s, pad).None?
  {
    if LengthOk(s, pad) {
      var b := Body(s);
      assert b == s[..n] + b[n..];
      ScanAppend(s[..n], b[n..], FRESH);
    }
  }

  lemma EncodeStep(c: seq<octet>, cur: nat, n: nat, v62: char, v63: char)
    requires cur % 3 == 0 && 1 <= n <= 3 && cur + n <= |c|
    ensures var g := Group(c[cur], if n > 1 then c[cur + 1] else 0, if n > 2 then c[cur + 2] else 0);
      Symbols(ToSextets(c[..cur + n]), v62, v63)
      == Symbols(ToSextets(c[..cur]), v62, v63) + Symbols(g[..n + 1], v62, v63)
  {
    var g := Group(c[cur], if n > 1 then c[cur + 1] else 0, if n > 2 then c[cur + 2] else 0);
    var d := c[cur..cur + n];
    assert c[..cur + n] == c[..cur] + d;
    ToSextetsAppend(c[..cur], d);
    assert ToSextets(d) == g[..n + 1];
    SymbolsAppend(ToSextets(c[..cur]), g[..n + 1], v62, v63);
  }
}
