/**
 Security associations: the keys of a security parameters pointer (SPP), and the reader
 of the SA file.

 A file is a sequence of lines that each end with a white space, as `fgets` gives them.
 */
module SecurityAssociation {
  import opened Octets
  import opened Texts
  import opened Base64

  datatype HmacType = SHA256 | AES128 | AES256

  datatype Key = Key(htype: HmacType, value: seq<octet>, macSize: nat)

  type KeyMap = map<nat, Key>

  datatype Spp = Spp(ownId: nat, keys: KeyMap)

  type SppMap = map<nat, Spp>

  function KeySize(t: HmacType): nat {
    match t
    case SHA256 => 0
    case AES128 => 16
    case AES256 => 32
  }

  function MaxDigest(t: HmacType): nat { if t.SHA256? then 32 else 16 }

  /** What a key in use looks like. */
  predicate KeyOk(k: Key) {
    && k.value != []
    && k.macSize % 2 == 0 && 2 <= k.macSize <= MaxDigest(k.htype)
    && (KeySize(k.htype) > 0 ==> |k.value| == KeySize(k.htype))
  }

  predicate KeysOk(keys: KeyMap) {
    forall id :: id in keys ==> 0 < id < 0x1_0000_0000 && KeyOk(keys[id])
  }

  /** Every SPP is stored under its own id and has keys to work with. */
  predicate SaOk(sa: SppMap) {
    forall id :: id in sa ==>
      id < 256 && sa[id].ownId == id && sa[id].keys != map[] && KeysOk(sa[id].keys)
  }

  // `SaFile::have` and the lookups with their defaults

  predicate Have(sa: SppMap, spp: nat, key: nat) {
    spp in sa && key > 0 && key in sa[spp].keys
  }

  function MacSize(sa: SppMap, spp: nat, key: nat): nat {
    if Have(sa, spp, key) then sa[spp].keys[key].macSize else 0
  }

  // `addKey`

  predicate Accepts(keys: KeyMap, id: nat, k: Key, replace: bool) {
    && 0 < id && k.value != [] && k.macSize >= 2 && k.macSize % 2 == 0
    && (id in keys ==> replace)
    && (KeySize(k.htype) > 0 ==> KeySize(k.htype) == |k.value|)
    && k.macSize <= MaxDigest(k.htype)
  }

  // Lines

  datatype KeyLine = KeyLine(id: nat, key: Key)

  function KeyKind(name: seq<char>): Option<(HmacType, nat)> {
    if name == "SHA256-128" then Some((SHA256, 16))
    else if name == "SHA256" then Some((SHA256, 32))
    else if name == "AES128" then Some((AES128, 16))
    else if name == "AES256" then Some((AES256, 16))
    else None
  }

  function Chars(s: seq<char>): seq<octet> { seq(|s|, i requires 0 <= i < |s| => s[i] as int % 256) }

  predicate Starts(s: seq<char>, p: seq<char>) { |s| >= |p| && s[..|p|] == p }

  /** The value of a key: plain characters, hexadecimal or Base64. */
  function KeyValue(s: seq<char>): Option<seq<octet>> {
    if Starts(s, "ASCII:") then Some(Chars(s[6..]))
    else if Starts(s, "HEX:") then FromHex(s[4..])
    else if Starts(s, "B64:") then Decode(s[4..], false)
    else Some(Chars(s))
  }

  /** The line without its first word and the spaces behind that. */
  function AfterWord(s: seq<char>): seq<char> {
    var w := Before(s, SPACES);
    if |w| == |s| then [] else SkipSpaces(s[|w| + 1..])
  }

  /** A line that starts with a digit: id, kind, optional size, value. */
  function ReadKeyLine(s: seq<char>): Option<KeyLine> {
    var id := WholeNumber(Before(s, SPACES), 0);
    var ws := Tokens(AfterWord(s), {' ', '\t', '\n', '\r'});
    if id.None? || id.value < 1 || id.value > 0xffff_ffff || |ws| < 2 || |ws| > 3 then None
    else
      var kind := KeyKind(ws[0]);
      var size := if |ws| == 3 then WholeNumber(ws[1], 0) else Some(0);
      var value := KeyValue(ws[|ws| - 1]);
      if kind.None? || size.None? || (|ws| == 3 && size.value < 1) || value.None? then None
      else if size.value > 0 && |value.value| != size.value then None
      else Some(KeyLine(id.value, Key(kind.value.0, value.value, kind.value.1)))
  }

  /** `Spp::set_val`: lines that do not start with a digit are ignored. */
  function SetVal(spp: Spp, s: seq<char>): Option<Spp> {
    if s == [] || !IsDigit(s[0]) then Some(spp)
    else
      match ReadKeyLine(s)
      case None => None
      case Some(KeyLine(id, k)) =>
        if Accepts(spp.keys, id, k, false) then Some(spp.(keys := spp.keys[id := k])) else None
  }

  // The file

  /** Where the reader stands: outside (0), in a section (1), in an SPP (2). */
  datatype Reader = Reader(step: nat, spp: Spp, spps: SppMap)

  const START := Reader(0, Spp(255, map[]), map[])

  /** An SPP ends with its section, or with the file. */
  function CloseSpp(r: Reader): Option<SppMap> {
    if r.step != 2 then Some(r.spps)
    else if r.spp.keys == map[] then None
    else Some(r.spps[r.spp.ownId := r.spp])
  }

  function SectionName(s: seq<char>): seq<char> { StripEnd(Before(s, {']'})) }

  function SppId(s: seq<char>): Option<int> {
    if s == [] then Some(0) else WholeNumber(s, 0)
  }

  function ReadLine(r: Reader, line: seq<char>): Option<Reader> {
    var s := SkipSpaces(line);
    if s == [] || s[0] == '#' then Some(r)
    else if s[0] == '[' then
      var rest := SkipSpaces(s[1..]);
      if ']' !in rest then None
      else
        match CloseSpp(r)
        case None => None
        case Some(spps) =>
          Some(Reader(if SectionName(rest) == "security_association" then 1 else 0, r.spp, spps))
    else if r.step == 1 then
      var id := SppId(StripEnd(AfterWord(s)));
      if Before(s, SPACES) != "spp" || id.None? || id.value < 0 || id.value > 255 then None
      else Some(Reader(2, Spp(id.value, map[]), r.spps))
    else if r.step == 2 then
      match SetVal(r.spp, s)
      case None => None
      case Some(spp) => Some(r.(spp := spp))
    else None
  }

  function ReadLines(r: Reader, lines: seq<seq<char>>): Option<SppMap>
    decreases |lines|
  {
    if lines == [] then CloseSpp(r)
    else
      match ReadLine(r, lines[0])
      case None => None
      case Some(next) => ReadLines(next, lines[1..])
  }

  /** What the reader keeps from line to line. */
  predicate ReaderOk(r: Reader) {
    SaOk(r.spps) && r.spp.ownId < 256 && KeysOk(r.spp.keys)
  }

  lemma CloseKeepsOk(r: Reader)
    requires ReaderOk(r)
    ensures CloseSpp(r).Some? ==> SaOk(CloseSpp(r).value)
  {
  }

  lemma LineKeepsOk(r: Reader, line: seq<char>)
    requires ReaderOk(r)
    ensures ReadLine(r, line).Some? ==> ReaderOk(ReadLine(r, line).value)
  {
    CloseKeepsOk(r);
  }

  /** Whatever the file says, what is accepted is a sound key pool. */
  lemma {:induction false} ReadLinesOk(r: Reader, lines: seq<seq<char>>)
    requires ReaderOk(r)
    ensures ReadLines(r, lines).Some? ==> SaOk(ReadLines(r, lines).value)
    decreases |lines|
  {
    hide ReadLine, ReaderOk, SaOk;
    if lines == [] {
      CloseKeepsOk(r);
    } else {
      LineKeepsOk(r, lines[0]);
      if ReadLine(r, lines[0]).Some? { ReadLinesOk(ReadLine(r, lines[0]).value, lines[1..]); }
    }
  }

  /** The SPP that is being read. */
  class SppReader {
    var ownId: nat
    var keys: KeyMap

    ghost function Value(): Spp
      reads this
    {
      Spp(ownId, keys)
    }

    constructor ()
      ensures Value() == START.spp
    {
      ownId, keys := 255, map[];
    }

    /** `addKey`: a key is stored if it may be used at all; otherwise nothing changes. */
    method AddKey(id: nat, k: Key, replace: bool) returns (ok: bool)
      modifies this
      ensures ok == Accepts(old(keys), id, k, replace)
      ensures ownId == old(ownId) && keys == if ok then old(keys)[id := k] else old(keys)
      ensures ok && KeysOk(old(keys)) && id < 0x1_0000_0000 ==> KeysOk(keys)
    {
      if id == 0 || k.value == [] || k.macSize < 2 || k.macSize % 2 != 0 { return false; }
      if id in keys && !replace { return false; }
      if KeySize(k.htype) > 0 && KeySize(k.htype) != |k.value| { return false; }
      if k.macSize > MaxDigest(k.htype) { return false; }
      keys := keys[id := k];
      ok := true;
    }

    method Set(id: nat)
      modifies this
      ensures Value() == Spp(id, map[])
    {
      ownId, keys := id, map[];
    }

    method ReadVal(s: seq<char>) returns (ok: bool)
      modifies this
      ensures ok == SetVal(old(Value()), s).Some?
      ensures Value() == if ok then SetVal(old(Value()), s).value else old(Value())
    {
      hide ReadKeyLine;
      if s == [] || !IsDigit(s[0]) { return true; }
      var line := ReadKeyLine(s);
      if line.None? { return false; }
      ok := AddKey(line.value.id, line.value.key, false);
    }
  }

  class SaFile {
    var spps: SppMap

    constructor ()
      ensures spps == map[]
    {
      spps := map[];
    }

    /** A file is taken as a whole, or the associations stay as they were. */
    method ReadSa(lines: seq<seq<char>>) returns (ok: bool)
      modifies this
      ensures ok == ReadLines(START, lines).Some?
      ensures spps == if ok then ReadLines(START, lines).value else old(spps)
      ensures SaOk(old(spps)) ==> SaOk(spps)
    {
      hide ReadKeyLine, SetVal, SaOk, KeysOk;
      var step, n := 0, 0;
      var cspp := new SppReader();
      var found: SppMap := map[];
      ghost var all := ReadLines(START, lines);
      StartOk(lines);
      assert lines[0..] == lines;
      while n < |lines|
        invariant n <= |lines| && fresh(cspp)
        invariant spps == old(spps)
        invariant ReadLines(Reader(step, cspp.Value(), found), lines[n..]) == all
      {
        ghost var r := Reader(step, cspp.Value(), found);
        assert lines[n..][0] == lines[n] && lines[n..][1..] == lines[n + 1..];
        var cur := SkipSpaces(lines[n]);
        n := n + 1;
        if cur == [] || cur[0] == '#' { continue; }
        if cur[0] == '[' {
          var rest := SkipSpaces(cur[1..]);
          if ']' !in rest { return false; }
          if step == 2 {
            if cspp.keys == map[] { return false; }
            found := found[cspp.ownId := Spp(cspp.ownId, cspp.keys)];
          }
          step := if SectionName(rest) == "security_association" then 1 else 0;
        } else if step == 1 {
          var id := SppId(StripEnd(AfterWord(cur)));
          if Before(cur, SPACES) != "spp" || id.None? || id.value < 0 || id.value > 255 { return false; }
          step := 2;
          cspp.Set(id.value);
        } else if step == 2 {
          var good := cspp.ReadVal(cur);
          if !good { return false; }
        } else {
          return false;
        }
      }
      if step == 2 {
        if cspp.keys == map[] { return false; }
        found := found[cspp.ownId := Spp(cspp.ownId, cspp.keys)];
      }
      spps := found;
      ok := true;
    }
  }

  lemma StartOk(lines: seq<seq<char>>)
    ensures ReadLines(START, lines).Some? ==> SaOk(ReadLines(START, lines).value)
  {
    assert ReaderOk(START);
    ReadLinesOk(START, lines);
  }
}
