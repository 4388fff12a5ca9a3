/**
 The HMAC libraries: one of a list is loaded on demand, and stays loaded as long as there
 are keys. Calls are sequential; whether a library can be opened and has the functions,
 and whether a key can be made, is up to the system.
 */
module HmacLibraries {
  import opened Octets

  /** The outcome of opening the library with an index, and of fetching its functions. */
  datatype System = System(opens: nat -> bool, links: nat -> bool)

  /** The global variables, and the keys that are in use. */
  datatype Lib = Lib(handle: Option<nat>, name: Option<nat>, table: Option<nat>, count: nat, live: set<nat>)

  /** Between calls: all pointers are null or all belong to one library, which is there as
      long as there are keys, and the count is the number of keys. */
  predicate Consistent(l: Lib) {
    && l.handle == l.name == l.table
    && l.count == |l.live|
    && (l.live != {} ==> l.handle.Some?)
  }

  predicate Loads(sys: System, i: nat) { sys.opens(i) && sys.links(i) }

  /** The first library from `i` on that can be loaded. */
  function FirstOf(sys: System, i: nat, n: nat): (r: Option<nat>)
    requires i <= n
    ensures r.Some? ==> i <= r.value < n && Loads(sys, r.value) && forall k :: i <= k < r.value ==> !Loads(sys, k)
    ensures r.None? ==> forall k :: i <= k < n ==> !Loads(sys, k)
    decreases n - i
  {
    if i == n then None else if Loads(sys, i) then Some(i) else FirstOf(sys, i + 1, n)
  }

  function Use(l: Lib, lib: Option<nat>): Lib { l.(handle := lib, name := lib, table := lib) }

  datatype Call =
    | LoadCall(sys: System)
    | SelectCall(sys: System, empty: bool, matching: seq<bool>)
    | AllocCall(sys: System, made: bool, ready: bool, key: nat)
    | DeleteCall(key: nat)
    | FreeCall

  /** The only library whose name matches a pattern. */
  function OnlyMatch(matching: seq<bool>): (r: Option<nat>)
    ensures r.Some? ==> r.value < |matching| && matching[r.value] && forall k :: 0 <= k < |matching| && matching[k] ==> k == r.value
    ensures r.None? ==> forall i :: 0 <= i < |matching| && matching[i] ==> exists k :: 0 <= k < |matching| && matching[k] && k != i
  {
    if i :| 0 <= i < |matching| && matching[i] && forall k :: 0 <= k < |matching| && matching[k] ==> k == i then Some(i) else None
  }

  /** A library is loaded: the first that can be, unless one is there. */
  function Loaded(l: Lib, sys: System, n: nat): Lib {
    if l.handle.Some? then l else Use(l, FirstOf(sys, 0, n))
  }

  /** What a call makes of the variables, with `n` libraries in the list. A key that cannot
      be initialised is deleted at once. */
  function Apply(l: Lib, c: Call, n: nat): Lib {
    match c
    case LoadCall(sys) => Loaded(l, sys, n)
    case SelectCall(sys, empty, matching) =>
      var found := OnlyMatch(matching);
      if empty || found.None? || l.handle.Some? then l
      else Use(l, if Loads(sys, found.value) then found else None)
    case AllocCall(sys, made, ready, key) =>
      var l1 := Loaded(l, sys, n);
      if l1.handle.Some? && made && ready then l1.(count := l1.count + 1, live := l1.live + {key}) else l1
    case DeleteCall(key) => if key in l.live then l.(count := l.count - if l.count > 0 then 1 else 0, live := l.live - {key}) else l
    case FreeCall => if l.count == 0 then Use(l, None) else l
  }

  /** A new key is not one of those in use. */
  predicate Fresh(l: Lib, c: Call) { c.AllocCall? ==> c.key !in l.live }

  lemma ApplyConsistent(l: Lib, c: Call, n: nat)
    requires Consistent(l) && Fresh(l, c)
    ensures Consistent(Apply(l, c, n))
    ensures l.handle.Some? && Apply(l, c, n).handle != l.handle ==> c.FreeCall? && l.live == {}
  {
  }

  ghost predicate AllFresh(l: Lib, cs: seq<Call>, n: nat)
    decreases |cs|
  {
    cs == [] || (Fresh(l, cs[0]) && AllFresh(Apply(l, cs[0], n), cs[1..], n))
  }

  function Run(l: Lib, cs: seq<Call>, n: nat): Lib
    decreases |cs|
  {
    if cs == [] then l else Run(Apply(l, cs[0], n), cs[1..], n)
  }

  const UNLOADED := Lib(None, None, None, 0, {})

  /** Over every run the variables stay consistent, and a library with keys in use is not
      unloaded by any call. */
  lemma {:induction false} RunConsistent(l: Lib, cs: seq<Call>, n: nat)
    requires Consistent(l) && AllFresh(l, cs, n)
    ensures Consistent(Run(l, cs, n))
    ensures (forall i :: 0 <= i < |cs| ==> !cs[i].FreeCall?) && l.handle.Some? ==> Run(l, cs, n).handle == l.handle
    decreases |cs|
  {
    if cs != [] {
      ApplyConsistent(l, cs[0], n);
      RunConsistent(Apply(l, cs[0], n), cs[1..], n);
    }
  }

  /** Without keys in use the library is unloaded and all pointers are null; with keys
      nothing changes. */
  lemma FreeUnloads(l: Lib, n: nat)
    requires Consistent(l)
    ensures l.live == {} ==> Apply(l, FreeCall, n) == UNLOADED
    ensures l.live != {} ==> Apply(l, FreeCall, n) == l
  {
  }

  /** A key is in use afterwards if and only if it was made and initialised, with the library
      that was there or with one that can be loaded, which is then the first of those. The
      other keys and a library that was there stay. */
  lemma AllocMeans(l: Lib, sys: System, made: bool, ready: bool, key: nat, n: nat)
    requires Consistent(l) && key !in l.live
    ensures var r := Apply(l, AllocCall(sys, made, ready, key), n);
      && (key in r.live <==> made && ready && (l.handle.Some? || exists i: nat :: i < n && Loads(sys, i)))
      && r.live - {key} == l.live
      && (l.handle.Some? ==> r.handle == l.handle)
      && (l.handle.None? && r.handle.Some? ==>
            Loads(sys, r.handle.value) && forall i: nat :: i < n && Loads(sys, i) ==> r.handle.value <= i)
  {
  }

  /** The call of `hmac_selectLib` never replaces a library, and loads one only if it is the
      only one that matches. */
  lemma SelectMeans(l: Lib, sys: System, empty: bool, matching: seq<bool>, n: nat)
    requires Consistent(l)
    ensures var r := Apply(l, SelectCall(sys, empty, matching), n);
      && r.live == l.live
      && (r != l <==>
            && l.handle.None? && !empty
            && exists i: nat :: i < |matching| && matching[i] && Loads(sys, i)
                 && forall k: nat :: k < |matching| && matching[k] ==> k == i)
      && (r != l ==> r.handle.Some? && r.handle.value < |matching| && matching[r.handle.value])
  {
  }

  function DeletesOf(keys: seq<nat>): seq<Call> { seq(|keys|, i requires 0 <= i < |keys| => DeleteCall(keys[i])) }

  /** Once every key that is in use is deleted, in any order and with any others among them,
      the library can be unloaded. */
  lemma {:induction false} AllDeletedUnloads(l: Lib, keys: seq<nat>, n: nat)
    requires Consistent(l) && forall k :: k in l.live ==> k in keys
    ensures Run(l, DeletesOf(keys) + [FreeCall], n) == UNLOADED
    decreases |keys|
  {
    var cs := DeletesOf(keys) + [FreeCall];
    if keys == [] {
      assert l.live == {};
      FreeUnloads(l, n);
      assert cs == [FreeCall] && cs[1..] == [];
    } else {
      var next := Apply(l, cs[0], n);
      assert cs[0] == DeleteCall(keys[0]);
      assert cs[1..] == DeletesOf(keys[1..]) + [FreeCall];
      forall k | k in next.live ensures k in keys[1..] { }
      AllDeletedUnloads(next, keys[1..], n);
    }
  }

  class HmacLibrary {
    const names: seq<seq<char>>
    var handle: Option<nat>
    var name: Option<nat>
    var table: Option<nat>
    var count: nat
    ghost var live: set<nat>

    ghost function Value(): Lib
      reads this
    {
      Lib(handle, name, table, count, live)
    }

    constructor (names: seq<seq<char>>)
      ensures this.names == names && Value() == UNLOADED
    {
      this.names, handle, name, table, count, live := names, None, None, None, 0, {};
    }

    /** `tryLib`: a library without the functions is closed again, but its handle is left. */
    method TryLib(sys: System, i: nat) returns (ok: bool)
      modifies this`handle, this`name, this`table
      ensures ok == Loads(sys, i)
      ensures ok ==> handle == name == table == Some(i)
      ensures !ok ==> name == old(name)
    {
      handle := if sys.opens(i) then Some(i) else None;
      if handle.Some? {
        table := if sys.links(i) then Some(i) else None;
        if table.Some? {
          name := Some(i);
          return true;
        }
      }
      ok := false;
    }

    method Null()
      modifies this`handle, this`name, this`table
      ensures handle == name == table == None
    {
      handle, name, table := None, None, None;
    }

    /** `doLoadLibrary`. */
    method Load(sys: System) returns (failed: bool)
      requires Consistent(Value())
      modifies this`handle, this`name, this`table
      ensures Value() == Apply(old(Value()), LoadCall(sys), |names|) && Consistent(Value())
      ensures failed == handle.None?
    {
      ApplyConsistent(Value(), LoadCall(sys), |names|);
      if handle.Some? { return false; }
      var i := 0;
      while i < |names|
        invariant i <= |names| && FirstOf(sys, i, |names|) == FirstOf(sys, 0, |names|)
      {
        var ok := TryLib(sys, i);
        if ok { return false; }
        i := i + 1;
      }
      Null();
      failed := true;
    }

    /** `hmac_selectLib`, with the names that match the pattern, which must not be empty. */
    method Select(sys: System, empty: bool, matching: seq<bool>) returns (ok: bool)
      requires Consistent(Value()) && |matching| == |names|
      modifies this`handle, this`name, this`table
      ensures Value() == Apply(old(Value()), SelectCall(sys, empty, matching), |names|) && Consistent(Value())
      ensures ok == (!empty && OnlyMatch(matching).Some? && handle == OnlyMatch(matching))
    {
      ApplyConsistent(Value(), SelectCall(sys, empty, matching), |names|);
      hide OnlyMatch;
      if empty { return false; }
      var found := FindOnly(matching);
      if found.None? { return false; }
      if handle.None? {
        ok := TryLib(sys, found.value);
        if !ok { Null(); }
      } else {
        ok := name == found;
      }
    }

    /** The loop over the names: a second match is an error. */
    method FindOnly(matching: seq<bool>) returns (found: Option<nat>)
      ensures found == OnlyMatch(matching)
    {
      hide OnlyMatch;
      found := None;
      for i := 0 to |matching|
        invariant found.Some? ==> found.value < i && matching[found.value]
        invariant forall k :: 0 <= k < i && matching[k] ==> found == Some(k)
      {
        if matching[i] {
          if found.Some? { return None; }
          found := Some(i);
        }
      }
    }

    /** `hmac_allocHMAC`: the count goes up before the key is initialised. */
    method Alloc(sys: System, made: bool, ready: bool, ghost key: nat) returns (ok: bool)
      requires Consistent(Value()) && key !in live
      modifies this
      ensures Value() == Apply(old(Value()), AllocCall(sys, made, ready, key), |names|) && Consistent(Value())
      ensures ok == (handle.Some? && made && ready)
    {
      ApplyConsistent(Value(), AllocCall(sys, made, ready, key), |names|);
      var failed := Load(sys);
      if failed || !made { return false; }
      count, live := count + 1, live + {key};
      if !ready {
        Delete(key);
        assert live == old(live);
        return false;
      }
      ok := true;
    }

    /** The destructor of a key. */
    method Delete(ghost key: nat)
      requires Consistent(Value()) && key in live
      modifies this`count, this`live
      ensures Value() == Apply(old(Value()), DeleteCall(key), |names|) && Consistent(Value())
    {
      ApplyConsistent(Value(), DeleteCall(key), |names|);
      count, live := count - 1, live - {key};
    }

    /** `freeLib`: only a library without keys is unloaded. */
    method Free()
      requires Consistent(Value())
      modifies this`handle, this`name, this`table
      ensures Value() == Apply(old(Value()), FreeCall, |names|) && Consistent(Value())
      ensures old(live) != {} ==> handle == old(handle)
    {
      ApplyConsistent(Value(), FreeCall, |names|);
      if count == 0 && handle.Some? { Null(); }
    }
  }
}
