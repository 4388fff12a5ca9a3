/**
 The typed reader `JsonProcFrom`. It works on a current object, which it replaces while it
 reads a structure or the records of a list, and puts back afterwards, on failure too.
 */
module JsonReading {
  import opened Octets
  import opened JsonText
  import opened JsonTree
  import opened JsonWriting
  import opened JsonFields
  import opened JsonTyped
  import C = TlvCodec

  class JsonReader {
    const c: Context
    var obj: Members

    constructor (c: Context, obj: Members)
      ensures this.c == c && this.obj == obj
    {
      this.c, this.obj := c, obj;
    }

    /** The members of a structure, in the current object. */
    method Parts(parts: seq<Simple>) returns (ok: bool, vs: seq<Val>)
      ensures ok == ReadParts(c, parts, obj, 0).Some? && (ok ==> ReadParts(c, parts, obj, 0) == Some(vs))
    {
      hide ReadSimple, Get;
      vs := [];
      assert parts[0..] == parts;
      PartsSoFar([], ReadParts(c, parts, obj, 0));
      for k := 0 to |parts|
        invariant ReadParts(c, parts, obj, 0) == After(vs, ReadParts(c, parts[k..], obj, k))
      {
        assert parts[k..][0] == parts[k] && parts[k..][1..] == parts[k + 1..];
        var j := Get(obj, c.spell(k));
        if j.None? { return false, vs; }
        var v := ReadSimple(c, parts[k], j.value);
        if v.None? { return false, vs; }
        AfterMore(vs, v.value, ReadParts(c, parts[k + 1..], obj, k + 1));
        vs := vs + v.value;
      }
      assert parts[|parts|..] == [] && vs + [] == vs;
      ok := true;
    }

    /** `procFlag` for the bits of one member. */
    method FlagBits(bits: seq<nat>, k: nat) returns (ok: bool, n: nat)
      ensures ok == ReadFlags(c, bits, obj, k, 0).Some? && (ok ==> ReadFlags(c, bits, obj, k, 0) == Some(n))
    {
      hide Get, BitOr;
      n := 0;
      assert bits[0..] == bits;
      for i := 0 to |bits|
        invariant ReadFlags(c, bits[i..], obj, k + i, n) == ReadFlags(c, bits, obj, k, 0)
      {
        assert bits[i..][0] == bits[i] && bits[i..][1..] == bits[i + 1..];
        var j := Get(obj, c.spell(k + i));
        if j.None? || !j.value.JBool? { return false, n; }
        if j.value.b { n := BitOr(n, Two(bits[i])); }
      }
      assert bits[|bits|..] == [];
      ok := true;
    }

    /** One member. A structure is read with its own object as the current one. */
    method Kind(kind: Kind, k: nat) returns (ok: bool, vs: seq<Val>)
      modifies this`obj
      ensures obj == old(obj)
      ensures ok == ReadKind(c, kind, obj, k).Some? && (ok ==> ReadKind(c, kind, obj, k) == Some(vs))
    {
      hide ReadSimple, Get, ReadParts, ReadFlags, FlagVal;
      match kind
      case One(s) =>
        var j := Get(obj, c.spell(k));
        if j.None? { return false, []; }
        var v := ReadSimple(c, s, j.value);
        return v.Some?, if v.Some? then v.value else [];
      case Flags(bits, size) =>
        var n;
        ok, n := FlagBits(bits, k);
        vs := [FlagVal(n, size)];
      case Struct(parts) =>
        var j := Get(obj, c.spell(k));
        if j.None? || !j.value.JObject? { return false, []; }
        var keep := obj;
        obj := j.value.members;
        ok, vs := Parts(parts);
        obj := keep;
    }

    /** A `proc_` function: the first member that fails ends it. */
    method Fields(fs: seq<Field>, blank: seq<Val>) returns (ok: bool, out: seq<Val>)
      modifies this`obj
      ensures obj == old(obj)
      ensures ok == ReadFields(c, fs, obj, 0, blank).Some? && (ok ==> ReadFields(c, fs, obj, 0, blank) == Some(out))
    {
      hide ReadKind, Put;
      out := blank;
      var k: nat, i := 0, 0;
      assert fs[0..] == fs;
      while i < |fs|
        invariant i <= |fs| && obj == old(obj)
        invariant ReadFields(c, fs[i..], obj, k, out) == ReadFields(c, fs, obj, 0, blank)
      {
        assert fs[i..][0] == fs[i] && fs[i..][1..] == fs[i + 1..];
        var good, v := Kind(fs[i].kind, k);
        if !good { return false, out; }
        out := Put(out, fs[i].at, v);
        k, i := k + NameCount(fs[i].kind), i + 1;
      }
      assert fs[|fs|..] == [];
      ok := true;
    }

    /** `procArray`: every element becomes the current object for a while. */
    method List(l: Lists, k: nat, blank: seq<Val>) returns (ok: bool, recs: seq<seq<Val>>)
      modifies this`obj
      ensures obj == old(obj)
      ensures ok == ReadList(c, l, obj, k, blank).Some? && (ok ==> ReadList(c, l, obj, k, blank) == Some(recs))
    {
      hide Get, ReadFields, ReadOctets;
      recs := [];
      if l.NoList? { return true, []; }
      var j := Get(obj, c.spell(k));
      if j.None? || !j.value.JArray? { return false, []; }
      var keep, e := obj, j.value.elements;
      RecsSoFar([], ReadRecords(c, l, e, blank));
      while e.Element?
        invariant AfterRecs(recs, ReadRecords(c, l, e, blank)) == ReadRecords(c, l, j.value.elements, blank)
        decreases e
      {
        var good, v := false, [];
        if l.Clocks? {
          var b := ReadOctets(e.value, true, 8);
          good := b.Some?;
          if good { v := b.value; }
        } else if e.value.JObject? {
          obj := e.value.members;
          good, v := Fields(l.rec, blank);
        }
        if !good {
          obj := keep;
          return false, recs;
        }
        AfterRecsMore(recs, v, ReadRecords(c, l, e.next, blank));
        recs := recs + [v];
        e := e.next;
      }
      obj := keep;
      assert recs + [] == recs;
      ok := true;
    }

    /** `procData` on the object of a dataField. */
    method Document(sc: Schema, blank: seq<Val>, blankRec: seq<Val>) returns (ok: bool, d: Doc)
      modifies this`obj
      ensures obj == old(obj)
      ensures ok == ReadDoc(c, sc, obj, blank, blankRec).Some? && (ok ==> ReadDoc(c, sc, obj, blank, blankRec) == Some(d))
    {
      hide ReadFields, ReadList;
      d := Doc([], []);
      var vals, recs;
      ok, vals := Fields(sc.fields, blank);
      if !ok { return; }
      ok, recs := List(sc.list, NamesOf(sc.fields), blankRec);
      d := Doc(vals, recs);
    }
  }

  function After(vs: seq<Val>, r: Option<seq<Val>>): Option<seq<Val>> { if r.None? then None else Some(vs + r.value) }

  lemma PartsSoFar(none: seq<Val>, r: Option<seq<Val>>)
    requires none == []
    ensures After(none, r) == r
  {
    if r.Some? { assert none + r.value == r.value; }
  }

  lemma AfterMore(a: seq<Val>, b: seq<Val>, r: Option<seq<Val>>)
    ensures After(a, if r.None? then None else Some(b + r.value)) == After(a + b, r)
  {
    if r.Some? { assert a + (b + r.value) == (a + b) + r.value; }
  }

  function AfterRecs(vs: seq<seq<Val>>, r: Option<seq<seq<Val>>>): Option<seq<seq<Val>>> {
    if r.None? then None else Some(vs + r.value)
  }

  lemma RecsSoFar(none: seq<seq<Val>>, r: Option<seq<seq<Val>>>)
    requires none == []
    ensures AfterRecs(none, r) == r
  {
    if r.Some? { assert none + r.value == r.value; }
  }

  lemma AfterRecsMore(a: seq<seq<Val>>, v: seq<Val>, r: Option<seq<seq<Val>>>)
    ensures AfterRecs(a, if r.None? then None else Some([v] + r.value)) == AfterRecs(a + [v], r)
  {
    if r.Some? { assert a + ([v] + r.value) == (a + [v]) + r.value; }
  }
}
