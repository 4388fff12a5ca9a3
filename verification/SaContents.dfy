/**
 What an SA file that is accepted contains: by its lines, and for files that are written
 from associations.
 */
module SaContents {
  import opened Octets
  import opened Texts
  import opened Base64
  import opened SecurityAssociation

  // ---------------------------------------------------------------- lines

  /** Spaces only, or a comment. */
  predicate Blank(line: seq<char>) { var s := SkipSpaces(line); s == [] || s[0] == '#' }

  predicate Bracket(line: seq<char>) { var s := SkipSpaces(line); s != [] && s[0] == '[' }

  /** The head of a section of associations. */
  predicate Opens(line: seq<char>) {
    Bracket(line) && StripEnd(Before(SkipSpaces(SkipSpaces(line)[1..]), {']'})) == "security_association"
  }

  /** A line that starts with a digit. */
  predicate KeyText(line: seq<char>) { var s := SkipSpaces(line); s != [] && '0' <= s[0] <= '9' }

  predicate Quiet(lines: seq<seq<char>>, lo: nat, hi: nat) { forall j :: lo <= j < hi && j < |lines| ==> Blank(lines[j]) }

  predicate Open(lines: seq<seq<char>>, lo: nat, hi: nat) { forall j :: lo <= j < hi && j < |lines| ==> !Bracket(lines[j]) }

  /** The first line of a section of associations, which has its head at `h`. */
  predicate First(lines: seq<seq<char>>, h: nat, i: nat) {
    h < i < |lines| && Opens(lines[h]) && Quiet(lines, h + 1, i) && !Blank(lines[i]) && !Bracket(lines[i])
  }

  /** Line `i` names an SPP. */
  ghost predicate Names(lines: seq<seq<char>>, i: nat, id: nat) {
    (exists h: nat :: First(lines, h, i)) && SppId(StripEnd(AfterWord(SkipSpaces(lines[i])))) == Some(id)
  }

  /** Line `j` is a key line of the section of line `i`. */
  predicate KeyAt(lines: seq<seq<char>>, i: nat, j: nat, k: nat, key: Key) {
    i < j < |lines| && Open(lines, i + 1, j + 1) && KeyText(lines[j]) && ReadKeyLine(SkipSpaces(lines[j])) == Some(KeyLine(k, key))
  }

  ghost predicate HasKey(lines: seq<seq<char>>, i: nat, n: nat, k: nat, key: Key) {
    exists j: nat :: j < n && KeyAt(lines, i, j, k, key)
  }

  ghost predicate KeysUpTo(lines: seq<seq<char>>, i: nat, n: nat, keys: KeyMap) {
    forall k: nat, key: Key :: HasKey(lines, i, n, k, key) <==> k in keys && keys[k] == key
  }

  /** The keys are those of the key lines of the section, and no others. */
  ghost predicate KeysOf(lines: seq<seq<char>>, i: nat, keys: KeyMap) { KeysUpTo(lines, i, |lines|, keys) }

  /** The last section that names an SPP, of those in front of line `n`. */
  ghost predicate LastNames(lines: seq<seq<char>>, i: nat, n: nat, id: nat) {
    i < n && Names(lines, i, id) && forall l: nat :: i < l < n ==> !Names(lines, l, id)
  }

  ghost predicate Named(lines: seq<seq<char>>, n: nat, id: nat) { exists i: nat :: i < n && Names(lines, i, id) }

  /** The map holds the SPPs named in front of line `n`, with the keys of their last section. */
  ghost predicate Holds(lines: seq<seq<char>>, n: nat, spps: SppMap) {
    && (forall id: nat :: id in spps <==> Named(lines, n, id))
    && (forall id: nat, i: nat :: LastNames(lines, i, n, id) && id in spps ==> spps[id].ownId == id && KeysOf(lines, i, spps[id].keys))
  }

  lemma NotInside(lines: seq<seq<char>>, i: nat, n: nat, id: nat)
    requires i < n <= |lines| && !Blank(lines[i]) && !Bracket(lines[i]) && Open(lines, i + 1, n)
    ensures n < |lines| ==> !Names(lines, n, id)
  {
  }

  lemma LastOn(lines: seq<seq<char>>, i: nat, n: nat, id: nat)
    requires !Names(lines, n, id)
    ensures LastNames(lines, i, n + 1, id) ==> LastNames(lines, i, n, id)
  {
    hide Names;
  }

  /** Lines without a new name leave the map as it is. */
  lemma HoldsOn(lines: seq<seq<char>>, n: nat, m: nat, spps: SppMap)
    requires Holds(lines, n, spps) && n < |lines| && m == n + 1 && forall id: nat :: !Names(lines, n, id)
    ensures Holds(lines, m, spps)
  {
    hide Names, KeysOf, LastNames;
    forall id: nat, i: nat | LastNames(lines, i, m, id) && id in spps
      ensures spps[id].ownId == id && KeysOf(lines, i, spps[id].keys)
    {
      LastOn(lines, i, n, id);
    }
    forall id: nat ensures Named(lines, n, id) <==> Named(lines, m, id) {
      if Named(lines, m, id) {
        var i: nat :| i < m && Names(lines, i, id);
        assert i != n;
      }
    }
  }

  /** The map with one more SPP, named at line `i`. */
  lemma HoldsMore(lines: seq<seq<char>>, i: nat, m: nat, spps: SppMap, spp: Spp)
    requires Holds(lines, i, spps) && Names(lines, i, spp.ownId) && KeysOf(lines, i, spp.keys) && m == i + 1
    ensures Holds(lines, m, spps[spp.ownId := spp])
  {
    hide KeysOf;
    var more := spps[spp.ownId := spp];
    OneName(lines, i);
    hide Names;
    forall id: nat, l: nat | LastNames(lines, l, m, id) && id in more
      ensures more[id].ownId == id && KeysOf(lines, l, more[id].keys)
    {
      if id == spp.ownId {
        assert l == i;
      } else {
        LastOn(lines, l, i, id);
      }
    }
    forall id: nat ensures id in more <==> Named(lines, m, id) {
      if Named(lines, m, id) {
        var l: nat :| l < m && Names(lines, l, id);
        if l != i { assert Named(lines, i, id); }
      }
    }
  }

  lemma OneName(lines: seq<seq<char>>, i: nat)
    ensures forall id: nat, other: nat :: Names(lines, i, id) && Names(lines, i, other) ==> id == other
  {
  }

  lemma HoldsTo(lines: seq<seq<char>>, lo: nat, n: nat, spps: SppMap)
    requires Holds(lines, lo, spps) && lo <= n <= |lines| && forall l: nat, id: nat :: lo <= l < n ==> !Names(lines, l, id)
    ensures Holds(lines, n, spps)
    decreases n - lo
  {
    hide Holds, Names;
    if lo < n {
      HoldsOn(lines, lo, lo + 1, spps);
      HoldsTo(lines, lo + 1, n, spps);
    }
  }

  // ---------------------------------------------------------------- the reader

  /** Where the reader stands in front of line `n`: its section has the head `h`, and its SPP is
      named at line `i`. */
  ghost predicate StandsAt(lines: seq<seq<char>>, n: nat, r: Reader, h: nat, i: nat) {
    if r.step == 2 then
      && i < n <= |lines| && First(lines, h, i) && Names(lines, i, r.spp.ownId) && Open(lines, i + 1, n)
      && Holds(lines, i, r.spps) && KeysUpTo(lines, i, n, r.spp.keys)
    else Holds(lines, n, r.spps) && n <= |lines| && (r.step == 1 ==> h < n && Opens(lines[h]) && Quiet(lines, h + 1, n))
  }

  lemma NoKeyAfter(lines: seq<seq<char>>, i: nat, n: nat, keys: KeyMap)
    requires KeysUpTo(lines, i, n, keys) && n <= |lines| && (n < |lines| ==> i < n && Bracket(lines[n]))
    ensures KeysOf(lines, i, keys)
  {
    forall k: nat, key: Key ensures HasKey(lines, i, |lines|, k, key) <==> HasKey(lines, i, n, k, key) {
      if HasKey(lines, i, |lines|, k, key) {
        var j: nat :| j < |lines| && KeyAt(lines, i, j, k, key);
        assert j < n;
      }
    }
  }

  /** An SPP that ends at line `n` joins the map. */
  lemma Closed(lines: seq<seq<char>>, n: nat, r: Reader, h: nat, i: nat)
    requires StandsAt(lines, n, r, h, i) && CloseSpp(r).Some? && (n < |lines| ==> Bracket(lines[n]))
    ensures Holds(lines, n, CloseSpp(r).value)
  {
    hide Holds, KeysUpTo, KeysOf, Names, Open, First, Bracket;
    if r.step == 2 {
      NoKeyAfter(lines, i, n, r.spp.keys);
      HoldsMore(lines, i, i + 1, r.spps, r.spp);
      forall l: nat, id: nat | i + 1 <= l < n ensures !Names(lines, l, id) { InSection(lines, h, i, n, l, id); }
      HoldsTo(lines, i + 1, n, r.spps[r.spp.ownId := r.spp]);
    }
  }

  lemma InSection(lines: seq<seq<char>>, h: nat, i: nat, n: nat, l: nat, id: nat)
    requires First(lines, h, i) && Open(lines, i + 1, n) && i < l < n <= |lines|
    ensures !Names(lines, l, id)
  {
    NotInside(lines, i, l, id);
  }

  lemma NoName(lines: seq<seq<char>>, n: nat)
    requires n < |lines| && (Blank(lines[n]) || Bracket(lines[n]))
    ensures forall id: nat :: !Names(lines, n, id)
  {
  }

  /** One line, with the new head and SPP line. */
  lemma LineRead(lines: seq<seq<char>>, n: nat, r: Reader, h: nat, i: nat) returns (hh: nat, ii: nat)
    requires StandsAt(lines, n, r, h, i) && n < |lines| && r.step <= 2 && ReadLine(r, lines[n]).Some?
    ensures ReadLine(r, lines[n]).value.step <= 2 && StandsAt(lines, n + 1, ReadLine(r, lines[n]).value, hh, ii)
  {
    hh, ii := h, i;
    if Blank(lines[n]) {
      BlankRead(lines, n, r, h, i);
    } else if Bracket(lines[n]) {
      hh := n;
      BracketRead(lines, n, r, h, i);
    } else if r.step == 1 {
      ii := n;
      NameRead(lines, n, r, h, i);
    } else {
      KeyRead(lines, n, r, h, i);
    }
  }

  lemma BlankRead(lines: seq<seq<char>>, n: nat, r: Reader, h: nat, i: nat)
    requires StandsAt(lines, n, r, h, i) && n < |lines| && Blank(lines[n])
    ensures ReadLine(r, lines[n]) == Some(r) && StandsAt(lines, n + 1, r, h, i)
  {
    hide Holds, KeysUpTo, Names, First;
    NoName(lines, n);
    if r.step == 2 { NoKeyHere(lines, i, n, n + 1, r.spp.keys); } else { HoldsOn(lines, n, n + 1, r.spps); }
  }

  lemma NoKeyHere(lines: seq<seq<char>>, i: nat, n: nat, m: nat, keys: KeyMap)
    requires KeysUpTo(lines, i, n, keys) && n < |lines| && m == n + 1 && !KeyText(lines[n])
    ensures KeysUpTo(lines, i, m, keys)
  {
    hide ReadKeyLine, KeyText, Bracket;
    forall k: nat, key: Key ensures HasKey(lines, i, m, k, key) <==> HasKey(lines, i, n, k, key) {
      if HasKey(lines, i, m, k, key) {
        var j: nat :| j < m && KeyAt(lines, i, j, k, key);
        assert j < n;
      }
    }
  }

  lemma BracketRead(lines: seq<seq<char>>, n: nat, r: Reader, h: nat, i: nat)
    requires StandsAt(lines, n, r, h, i) && n < |lines| && Bracket(lines[n]) && ReadLine(r, lines[n]).Some?
    ensures var s := ReadLine(r, lines[n]).value; s.step <= 1 && StandsAt(lines, n + 1, s, n, i)
  {
    hide Holds, Names, CloseSpp;
    assert !Blank(lines[n]);
    hide KeysUpTo;
    NoName(lines, n);
    Closed(lines, n, r, h, i);
    HoldsOn(lines, n, n + 1, CloseSpp(r).value);
  }

  lemma NameRead(lines: seq<seq<char>>, n: nat, r: Reader, h: nat, i: nat)
    requires StandsAt(lines, n, r, h, i) && n < |lines| && !Blank(lines[n]) && !Bracket(lines[n]) && r.step == 1
    requires ReadLine(r, lines[n]).Some?
    ensures var s := ReadLine(r, lines[n]).value; s.step == 2 && StandsAt(lines, n + 1, s, h, n)
  {
    hide Holds;
    assert First(lines, h, n);
  }

  lemma KeyRead(lines: seq<seq<char>>, n: nat, r: Reader, h: nat, i: nat)
    requires StandsAt(lines, n, r, h, i) && n < |lines| && !Blank(lines[n]) && !Bracket(lines[n]) && r.step != 1 && r.step <= 2
    requires ReadLine(r, lines[n]).Some?
    ensures var s := ReadLine(r, lines[n]).value; s.step == 2 && StandsAt(lines, n + 1, s, h, i)
  {
    hide Holds, Names, KeysUpTo, ReadKeyLine, First;
    var s := ReadLine(r, lines[n]).value;
    if KeyText(lines[n]) {
      var line := ReadKeyLine(SkipSpaces(lines[n])).value;
      OneKeyMore(lines, i, n, n + 1, r.spp.keys, line.id, line.key);
    } else {
      NoKeyHere(lines, i, n, n + 1, r.spp.keys);
    }
  }

  lemma OneKeyMore(lines: seq<seq<char>>, i: nat, n: nat, m: nat, keys: KeyMap, k: nat, key: Key)
    requires KeysUpTo(lines, i, n, keys) && i < n < |lines| && m == n + 1 && KeyAt(lines, i, n, k, key) && k !in keys
    ensures KeysUpTo(lines, i, m, keys[k := key])
  {
    hide ReadKeyLine;
    var more := keys[k := key];
    forall l: nat, other: Key ensures HasKey(lines, i, m, l, other) <==> l in more && more[l] == other {
      if HasKey(lines, i, m, l, other) {
        var j: nat :| j < m && KeyAt(lines, i, j, l, other);
        if j < n { assert HasKey(lines, i, n, l, other); }
      }
      if l in more && more[l] == other {
        if l == k {
          assert n < m && KeyAt(lines, i, n, l, other);
        } else {
          assert HasKey(lines, i, n, l, other);
          var j: nat :| j < n && KeyAt(lines, i, j, l, other);
          assert j < m;
        }
      }
    }
  }

  lemma {:induction false} RestRead(lines: seq<seq<char>>, n: nat, r: Reader, h: nat, i: nat)
    requires StandsAt(lines, n, r, h, i) && r.step <= 2 && n <= |lines| && ReadLines(r, lines[n..]).Some?
    ensures Holds(lines, |lines|, ReadLines(r, lines[n..]).value)
    decreases |lines| - n
  {
    hide StandsAt, Holds, ReadLine, CloseSpp;
    if n == |lines| {
      Closed(lines, n, r, h, i);
    } else {
      assert lines[n..][0] == lines[n] && lines[n..][1..] == lines[n + 1..];
      var hh, ii := LineRead(lines, n, r, h, i);
      RestRead(lines, n + 1, ReadLine(r, lines[n]).value, hh, ii);
    }
  }

  /** An accepted file holds exactly the SPPs that its sections name, each with exactly the keys
      of the key lines of the last section that names it. */
  lemma FileContents(lines: seq<seq<char>>)
    requires ReadLines(START, lines).Some?
    ensures var m := ReadLines(START, lines).value;
      && (forall id: nat :: id in m <==> Named(lines, |lines|, id))
      && (forall id: nat, i: nat :: LastNames(lines, i, |lines|, id) && id in m ==> m[id].ownId == id && KeysOf(lines, i, m[id].keys))
  {
    hide KeysOf, LastNames, Names;
    assert lines[0..] == lines;
    NothingNamed(lines);
    RestRead(lines, 0, START, 0, 0);
  }

  lemma NothingNamed(lines: seq<seq<char>>)
    ensures Holds(lines, 0, map[])
  {
  }
}
