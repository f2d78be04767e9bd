/** Precompiled chunks: what luaU_dump writes (ldump.c) and luaU_undump reads back (lundump.c). */
module LuaChunk {
  import LuaChecker

  newtype byte = x: int | 0 <= x <= 255
  type word = x: nat | x < 0x1_0000_0000
  type int32 = x: int | -0x8000_0000 <= x < 0x8000_0000
  type number = x: nat | x < 0x1_0000_0000_0000_0000  // the bits of a lua_Number

  type TString = seq<byte>
  datatype Option<T> = None | Some(value: T)

  datatype Constant = Nil | Boolean(b: bool) | Number(n: number) | String(s: Option<TString>)
  datatype LocVar = LocVar(varname: Option<TString>, startpc: int32, endpc: int32)

  datatype Head = Head(linedefined: int32, lastlinedefined: int32,
                       nups: byte, numparams: byte, isVararg: byte, maxstacksize: byte)
  datatype Debug = Debug(lineinfo: seq<word>, locvars: seq<LocVar>, upvalues: seq<Option<TString>>)

  datatype Proto = Proto(source: Option<TString>, head: Head, code: seq<word>, k: seq<Constant>,
                         p: seq<Proto>, debug: Debug)

  /** A size kept in a C int. */
  predicate Fits(n: nat) {
    n < 0x8000_0000
  }

  predicate StringFits(s: Option<TString>) {
    s.Some? ==> |s.value| + 1 < 0x1_0000_0000_0000_0000
  }

  /** Sizes are C ints and string lengths size_t's, here and in every nested function. */
  predicate Sized(f: Proto) {
    && StringFits(f.source) && Fits(|f.code|) && Fits(|f.k|) && Fits(|f.p|) && DebugSized(f.debug)
    && (forall i :: 0 <= i < |f.k| ==> ConstantSized(f.k[i]))
    && (forall i :: 0 <= i < |f.p| ==> Sized(f.p[i]))
  }

  predicate ConstantSized(c: Constant) {
    c.String? ==> StringFits(c.s)
  }

  predicate LocVarSized(v: LocVar) {
    StringFits(v.varname)
  }

  predicate DebugSized(d: Debug) {
    && Fits(|d.lineinfo|) && Fits(|d.locvars|) && Fits(|d.upvalues|)
    && (forall i :: 0 <= i < |d.locvars| ==> LocVarSized(d.locvars[i]))
    && (forall i :: 0 <= i < |d.upvalues| ==> StringFits(d.upvalues[i]))
  }

  // ---- Bytes, least significant first

  function Pow256(n: nat): (r: nat)
    ensures r >= 1
  {
    if n == 0 then 1 else 256 * Pow256(n - 1)
  }

  function Bytes(x: nat, n: nat): (b: seq<byte>)
    ensures |b| == n
  {
    if n == 0 then [] else [(x % 256) as byte] + Bytes(x / 256, n - 1)
  }

  function Value(b: seq<byte>): (r: nat)
    ensures r < Pow256(|b|)
  {
    if b == [] then 0 else b[0] as int + 256 * Value(b[1..])
  }

  lemma {:induction false} BytesValue(x: nat, n: nat)
    requires x < Pow256(n)
    ensures Value(Bytes(x, n)) == x
  {
    if n > 0 {
      BytesValue(x / 256, n - 1);
    }
  }

  lemma Powers()
    ensures Pow256(4) == 0x1_0000_0000 && Pow256(8) == 0x1_0000_0000_0000_0000
  {
    assert Pow256(2) == 0x1_0000;
    assert Pow256(4) == 0x1_0000 * 0x1_0000;
    assert Pow256(6) == 0x1_0000 * 0x1_0000_0000;
  }

  function IntBytes(x: int32): seq<byte> {
    Bytes(if x < 0 then x + 0x1_0000_0000 else x, 4)
  }

  function WordsBytes(ws: seq<word>): (b: seq<byte>)
    ensures |b| == 4 * |ws|
  {
    if ws == [] then [] else Bytes(ws[0], 4) + WordsBytes(ws[1..])
  }

  // ---- What the dumper writes

  function StringBytes(s: Option<TString>): seq<byte> {
    if s.None? then Bytes(0, 8) else Bytes(|s.value| + 1, 8) + (s.value + [0])
  }

  function HeadBytes(h: Head): seq<byte> {
    IntBytes(h.linedefined) + (IntBytes(h.lastlinedefined)
                               + [h.nups, h.numparams, h.isVararg, h.maxstacksize])
  }

  function ConstantBytes(c: Constant): seq<byte> {
    match c
    case Nil => [0]
    case Boolean(b) => [1, if b then 1 else 0]
    case Number(n) => [3] + Bytes(n, 8)
    case String(s) => [4] + StringBytes(s)
  }

  function ConstantsBytes(k: seq<Constant>): seq<byte> {
    if k == [] then [] else ConstantBytes(k[0]) + ConstantsBytes(k[1..])
  }

  function LocVarBytes(v: LocVar): seq<byte> {
    StringBytes(v.varname) + (IntBytes(v.startpc) + IntBytes(v.endpc))
  }

  function LocVarsBytes(vs: seq<LocVar>): seq<byte> {
    if vs == [] then [] else LocVarBytes(vs[0]) + LocVarsBytes(vs[1..])
  }

  function StringsBytes(ss: seq<Option<TString>>): seq<byte> {
    if ss == [] then [] else StringBytes(ss[0]) + StringsBytes(ss[1..])
  }

  /** The debug information that gets written. */
  function Kept(d: Debug, strip: bool): Debug {
    if strip then Debug([], [], []) else d
  }

  function DebugBytes(d: Debug): seq<byte>
    requires DebugSized(d)
  {
    IntBytes(|d.lineinfo|) + (WordsBytes(d.lineinfo)
      + (IntBytes(|d.locvars|) + (LocVarsBytes(d.locvars)
         + (IntBytes(|d.upvalues|) + StringsBytes(d.upvalues)))))
  }

  /** A function's source is left out where it is its parent's. */
  function WrittenSource(f: Proto, p: Option<TString>, strip: bool): Option<TString> {
    if f.source == p || strip then None else f.source
  }

  function FunctionBytes(f: Proto, p: Option<TString>, strip: bool): seq<byte>
    requires Sized(f)
    decreases f, |f.p| + 1
  {
    StringBytes(WrittenSource(f, p, strip)) + (HeadBytes(f.head)
      + (IntBytes(|f.code|) + (WordsBytes(f.code)
         + (IntBytes(|f.k|) + (ConstantsBytes(f.k)
            + (IntBytes(|f.p|) + (NestedBytes(f, 0, strip)
               + DebugBytes(Kept(f.debug, strip)))))))))
  }

  /** The nested functions of f from the i-th on. */
  function NestedBytes(f: Proto, i: nat, strip: bool): seq<byte>
    requires Sized(f) && i <= |f.p|
    decreases f, |f.p| - i
  {
    if i == |f.p| then [] else FunctionBytes(f.p[i], f.source, strip) + NestedBytes(f, i + 1, strip)
  }

  /** luaU_header for a little-endian machine with 4-byte ints, 8-byte sizes and numbers. */
  const HEADER: seq<byte> := [27, 76, 117, 97, 81, 0, 1, 4, 8, 4, 8, 0]

  // ---- What the loader reads

  datatype Read<T> = Got(value: T, rest: seq<byte>) | Bad

  function Take(ts: seq<byte>, n: nat): Read<seq<byte>> {
    if n <= |ts| then Got(ts[..n], ts[n..]) else Bad
  }

  function TakeByte(ts: seq<byte>): Read<byte> {
    if ts == [] then Bad else Got(ts[0], ts[1..])
  }

  lemma TakeFront(a: seq<byte>, rest: seq<byte>)
    ensures Take(a + rest, |a|) == Got(a, rest)
  {
  }

  function ReadInt(ts: seq<byte>): (r: Read<int32>)
    ensures r.Got? ==> r.value >= 0
  {
    match Take(ts, 4)
    case Bad => Bad
    case Got(b, rest) => if Value(b) < 0x8000_0000 then Got(Value(b), rest) else Bad
  }

  lemma ReadIntBytes(x: int32, rest: seq<byte>)
    ensures ReadInt(IntBytes(x) + rest) == if x >= 0 then Got(x, rest) else Bad
  {
    Powers();
    TakeFront(IntBytes(x), rest);
    BytesValue(if x < 0 then x + 0x1_0000_0000 else x, 4);
  }

  function ReadString(ts: seq<byte>): Read<Option<TString>> {
    match Take(ts, 8)
    case Bad => Bad
    case Got(b, rest) =>
      if Value(b) == 0 then Got(None, rest)
      else
        match Take(rest, Value(b))
        case Bad => Bad
        case Got(s, rest) => Got(Some(s[..|s| - 1]), rest)
  }

  lemma ReadStringBytes(s: Option<TString>, rest: seq<byte>)
    requires StringFits(s)
    ensures ReadString(StringBytes(s) + rest) == Got(s, rest)
  {
    Powers();
    if s.None? {
      TakeFront(Bytes(0, 8), rest);
      BytesValue(0, 8);
    } else {
      var body := s.value + [0];
      assert StringBytes(s) + rest == Bytes(|body|, 8) + (body + rest);
      TakeFront(Bytes(|body|, 8), body + rest);
      BytesValue(|body|, 8);
      TakeFront(body, rest);
      assert body[..|body| - 1] == s.value;
    }
  }

  function Words(b: seq<byte>, n: nat): (ws: seq<word>)
    requires |b| == 4 * n
    ensures |ws| == n
  {
    if n == 0 then [] else (Powers(); [Value(b[..4])]) + Words(b[4..], n - 1)
  }

  lemma {:induction false} WordsOfBytes(ws: seq<word>)
    ensures Words(WordsBytes(ws), |ws|) == ws
  {
    if ws != [] {
      var b := WordsBytes(ws);
      Powers();
      BytesValue(ws[0], 4);
      assert b[..4] == Bytes(ws[0], 4) && b[4..] == WordsBytes(ws[1..]);
      WordsOfBytes(ws[1..]);
      assert ws == [ws[0]] + ws[1..];
    }
  }

  /** A count and that many words. */
  function ReadWords(ts: seq<byte>): Read<seq<word>> {
    match ReadInt(ts)
    case Bad => Bad
    case Got(n, rest) =>
      match Take(rest, 4 * n)
      case Bad => Bad
      case Got(b, rest) => Got(Words(b, n), rest)
  }

  lemma ReadWordsBytes(ws: seq<word>, rest: seq<byte>)
    requires Fits(|ws|)
    ensures ReadWords(IntBytes(|ws|) + (WordsBytes(ws) + rest)) == Got(ws, rest)
  {
    hide IntBytes, ReadInt, WordsBytes, Words;
    ReadIntBytes(|ws|, WordsBytes(ws) + rest);
    TakeFront(WordsBytes(ws), rest);
    WordsOfBytes(ws);
  }

  function ReadHead(ts: seq<byte>): Read<Head> {
    match ReadInt(ts)
    case Bad => Bad
    case Got(a, t1) =>
      match ReadInt(t1)
      case Bad => Bad
      case Got(b, t2) =>
        match Take(t2, 4)
        case Bad => Bad
        case Got(c, rest) => Got(Head(a, b, c[0], c[1], c[2], c[3]), rest)
  }

  predicate HeadLoadable(h: Head) {
    h.linedefined >= 0 && h.lastlinedefined >= 0
  }

  lemma ReadHeadBytes(h: Head, rest: seq<byte>)
    ensures ReadHead(HeadBytes(h) + rest) == if HeadLoadable(h) then Got(h, rest) else Bad
  {
    hide ReadInt, IntBytes;
    var c := [h.nups, h.numparams, h.isVararg, h.maxstacksize];
    assert HeadBytes(h) + rest == IntBytes(h.linedefined) + (IntBytes(h.lastlinedefined) + (c + rest));
    ReadIntBytes(h.linedefined, IntBytes(h.lastlinedefined) + (c + rest));
    ReadIntBytes(h.lastlinedefined, c + rest);
    TakeFront(c, rest);
  }

  function ReadConstant(ts: seq<byte>): Read<Constant> {
    match TakeByte(ts)
    case Bad => Bad
    case Got(t, rest) =>
      if t == 0 then Got(Nil, rest)
      else if t == 1 then
        match TakeByte(rest)
        case Bad => Bad
        case Got(b, rest) => Got(Boolean(b != 0), rest)
      else if t == 3 then
        match Take(rest, 8)
        case Bad => Bad
        case Got(b, rest) => (Powers(); Got(Number(Value(b)), rest))
      else if t == 4 then
        match ReadString(rest)
        case Bad => Bad
        case Got(s, rest) => Got(String(s), rest)
      else Bad
  }

  lemma ReadConstantBytes(c: Constant, rest: seq<byte>)
    requires ConstantSized(c)
    ensures ReadConstant(ConstantBytes(c) + rest) == Got(c, rest)
  {
    hide ReadString, StringBytes, Bytes, Value, Take;
    var ts := ConstantBytes(c) + rest;
    match c {
      case Nil =>
        assert ts[1..] == rest;
      case Boolean(b) =>
        assert ts[1..][1..] == rest;
      case Number(n) =>
        assert ts[1..] == Bytes(n, 8) + rest;
        Powers();
        TakeFront(Bytes(n, 8), rest);
        BytesValue(n, 8);
      case String(s) =>
        assert ts[1..] == StringBytes(s) + rest;
        ReadStringBytes(s, rest);
    }
  }

  function ReadConstants(ts: seq<byte>, n: nat): Read<seq<Constant>> {
    if n == 0 then Got([], ts)
    else
      match ReadConstant(ts)
      case Bad => Bad
      case Got(c, rest) =>
        match ReadConstants(rest, n - 1)
        case Bad => Bad
        case Got(k, rest) => Got([c] + k, rest)
  }

  lemma {:induction false} ReadConstantsBytes(k: seq<Constant>, rest: seq<byte>)
    requires forall i :: 0 <= i < |k| ==> ConstantSized(k[i])
    ensures ReadConstants(ConstantsBytes(k) + rest, |k|) == Got(k, rest)
  {
    hide ReadConstant, ConstantBytes;
    if k == [] {
      assert ConstantsBytes(k) + rest == rest;
    } else {
      var behind := ConstantsBytes(k[1..]) + rest;
      assert ConstantsBytes(k) + rest == ConstantBytes(k[0]) + behind;
      ReadConstantBytes(k[0], behind);
      ReadConstantsBytes(k[1..], rest);
      assert [k[0]] + k[1..] == k;
    }
  }

  function ReadLocVar(ts: seq<byte>): Read<LocVar> {
    match ReadString(ts)
    case Bad => Bad
    case Got(name, t1) =>
      match ReadInt(t1)
      case Bad => Bad
      case Got(a, t2) =>
        match ReadInt(t2)
        case Bad => Bad
        case Got(b, rest) => Got(LocVar(name, a, b), rest)
  }

  predicate LocVarLoadable(v: LocVar) {
    v.startpc >= 0 && v.endpc >= 0
  }

  lemma ReadLocVarBytes(v: LocVar, rest: seq<byte>)
    requires LocVarSized(v)
    ensures ReadLocVar(LocVarBytes(v) + rest) == if LocVarLoadable(v) then Got(v, rest) else Bad
  {
    hide ReadInt, IntBytes, ReadString, StringBytes;
    var t2 := IntBytes(v.endpc) + rest;
    var t1 := IntBytes(v.startpc) + t2;
    assert LocVarBytes(v) + rest == StringBytes(v.varname) + t1;
    ReadStringBytes(v.varname, t1);
    ReadIntBytes(v.startpc, t2);
    ReadIntBytes(v.endpc, rest);
  }

  function ReadLocVars(ts: seq<byte>, n: nat): Read<seq<LocVar>> {
    if n == 0 then Got([], ts)
    else
      match ReadLocVar(ts)
      case Bad => Bad
      case Got(v, rest) =>
        match ReadLocVars(rest, n - 1)
        case Bad => Bad
        case Got(vs, rest) => Got([v] + vs, rest)
  }

  lemma {:induction false} ReadLocVarsBytes(vs: seq<LocVar>, rest: seq<byte>)
    requires forall i :: 0 <= i < |vs| ==> LocVarSized(vs[i])
    ensures ReadLocVars(LocVarsBytes(vs) + rest, |vs|) ==
            if (forall i :: 0 <= i < |vs| ==> LocVarLoadable(vs[i])) then Got(vs, rest) else Bad
  {
    hide ReadLocVar, LocVarBytes, LocVarSized;
    if vs == [] {
      assert LocVarsBytes(vs) + rest == rest;
    } else {
      var behind := LocVarsBytes(vs[1..]) + rest;
      assert LocVarsBytes(vs) + rest == LocVarBytes(vs[0]) + behind;
      ReadLocVarBytes(vs[0], behind);
      ReadLocVarsBytes(vs[1..], rest);
      assert [vs[0]] + vs[1..] == vs;
    }
  }

  function ReadStrings(ts: seq<byte>, n: nat): Read<seq<Option<TString>>> {
    if n == 0 then Got([], ts)
    else
      match ReadString(ts)
      case Bad => Bad
      case Got(s, rest) =>
        match ReadStrings(rest, n - 1)
        case Bad => Bad
        case Got(ss, rest) => Got([s] + ss, rest)
  }

  lemma {:induction false} ReadStringsBytes(ss: seq<Option<TString>>, rest: seq<byte>)
    requires forall i :: 0 <= i < |ss| ==> StringFits(ss[i])
    ensures ReadStrings(StringsBytes(ss) + rest, |ss|) == Got(ss, rest)
  {
    hide ReadString, StringBytes, StringFits;
    if ss == [] {
      assert StringsBytes(ss) + rest == rest;
    } else {
      var behind := StringsBytes(ss[1..]) + rest;
      assert StringsBytes(ss) + rest == StringBytes(ss[0]) + behind;
      ReadStringBytes(ss[0], behind);
      ReadStringsBytes(ss[1..], rest);
      assert [ss[0]] + ss[1..] == ss;
    }
  }

  /** A count and what comes after it. */
  function ReadCountedConstants(ts: seq<byte>): Read<seq<Constant>> {
    match ReadInt(ts) case Bad => Bad case Got(n, rest) => ReadConstants(rest, n)
  }

  function ReadCountedLocVars(ts: seq<byte>): Read<seq<LocVar>> {
    match ReadInt(ts) case Bad => Bad case Got(n, rest) => ReadLocVars(rest, n)
  }

  function ReadCountedStrings(ts: seq<byte>): Read<seq<Option<TString>>> {
    match ReadInt(ts) case Bad => Bad case Got(n, rest) => ReadStrings(rest, n)
  }

  function ReadDebug(ts: seq<byte>): Read<Debug> {
    match ReadWords(ts)
    case Bad => Bad
    case Got(lineinfo, t1) =>
      match ReadCountedLocVars(t1)
      case Bad => Bad
      case Got(locvars, t2) =>
        match ReadCountedStrings(t2)
        case Bad => Bad
        case Got(upvalues, rest) => Got(Debug(lineinfo, locvars, upvalues), rest)
  }

  predicate DebugLoadable(d: Debug) {
    forall i :: 0 <= i < |d.locvars| ==> LocVarLoadable(d.locvars[i])
  }

  lemma ReadDebugBytes(d: Debug, rest: seq<byte>)
    requires DebugSized(d)
    ensures ReadDebug(DebugBytes(d) + rest) == if DebugLoadable(d) then Got(d, rest) else Bad
  {
    hide ReadInt, IntBytes, ReadWords, WordsBytes, ReadLocVars, LocVarsBytes, ReadStrings, StringsBytes;
    var t2 := IntBytes(|d.upvalues|) + (StringsBytes(d.upvalues) + rest);
    var t1 := IntBytes(|d.locvars|) + (LocVarsBytes(d.locvars) + t2);
    assert DebugBytes(d) + rest == IntBytes(|d.lineinfo|) + (WordsBytes(d.lineinfo) + t1);
    ReadWordsBytes(d.lineinfo, t1);
    ReadIntBytes(|d.locvars|, LocVarsBytes(d.locvars) + t2);
    ReadLocVarsBytes(d.locvars, t2);
    ReadIntBytes(|d.upvalues|, StringsBytes(d.upvalues) + rest);
    ReadStringsBytes(d.upvalues, rest);
  }

  /** A function with everything read but its nested functions and debug information. */
  datatype Front = Front(source: Option<TString>, head: Head, code: seq<word>, k: seq<Constant>)

  function ReadFront(ts: seq<byte>): Read<Front> {
    match ReadString(ts)
    case Bad => Bad
    case Got(source, t1) =>
      match ReadHead(t1)
      case Bad => Bad
      case Got(head, t2) =>
        match ReadWords(t2)
        case Bad => Bad
        case Got(code, t3) =>
          match ReadCountedConstants(t3)
          case Bad => Bad
          case Got(k, rest) => Got(Front(source, head, code, k), rest)
  }

  function FrontBytes(x: Front): seq<byte>
    requires Fits(|x.code|) && Fits(|x.k|)
  {
    StringBytes(x.source) + (HeadBytes(x.head)
      + (IntBytes(|x.code|) + (WordsBytes(x.code) + (IntBytes(|x.k|) + ConstantsBytes(x.k)))))
  }

  lemma ReadFrontBytes(x: Front, rest: seq<byte>)
    requires Fits(|x.code|) && Fits(|x.k|) && StringFits(x.source)
    requires forall i :: 0 <= i < |x.k| ==> ConstantSized(x.k[i])
    ensures ReadFront(FrontBytes(x) + rest) == if HeadLoadable(x.head) then Got(x, rest) else Bad
  {
    hide ReadInt, IntBytes, ReadWords, WordsBytes, ReadString, StringBytes, ReadConstants, ConstantsBytes;
    hide ReadHead, HeadBytes;
    var t3 := IntBytes(|x.k|) + (ConstantsBytes(x.k) + rest);
    var t2 := IntBytes(|x.code|) + (WordsBytes(x.code) + t3);
    var t1 := HeadBytes(x.head) + t2;
    assert FrontBytes(x) + rest == StringBytes(x.source) + t1;
    ReadStringBytes(x.source, t1);
    ReadHeadBytes(x.head, t2);
    ReadWordsBytes(x.code, t3);
    ReadIntBytes(|x.k|, ConstantsBytes(x.k) + rest);
    ReadConstantsBytes(x.k, rest);
  }

  const MAXCCALLS: nat := 200

  /** LoadFunction: `parent` is the source a function without one inherits, `room` how many levels may
      still nest, `check` the bytecode checker. */
  function ReadFunction(ts: seq<byte>, parent: Option<TString>, room: nat, check: Proto -> bool): Read<Proto>
    decreases room, 0, 0
  {
    if room == 0 then Bad else
    match ReadFront(ts)
    case Bad => Bad
    case Got(x, t1) =>
      var source := if x.source.None? then parent else x.source;
      match ReadInt(t1)
      case Bad => Bad
      case Got(n, t2) =>
        match ReadNested(t2, n, source, room - 1, check)
        case Bad => Bad
        case Got(p, t3) =>
          match ReadDebug(t3)
          case Bad => Bad
          case Got(debug, rest) =>
            var f := Proto(source, x.head, x.code, x.k, p, debug);
            if check(f) then Got(f, rest) else Bad
  }

  function ReadNested(ts: seq<byte>, n: nat, parent: Option<TString>, room: nat,
                      check: Proto -> bool): Read<seq<Proto>>
    decreases room, 1, n
  {
    if n == 0 then Got([], ts)
    else
      match ReadFunction(ts, parent, room, check)
      case Bad => Bad
      case Got(f, rest) =>
        match ReadNested(rest, n - 1, parent, room, check)
        case Bad => Bad
        case Got(p, rest) => Got([f] + p, rest)
  }

  /** luaU_undump, called where `room` more levels may nest. */
  function Undump(ts: seq<byte>, room: nat, check: Proto -> bool): Read<Proto> {
    match Take(ts, |HEADER|)
    case Bad => Bad
    case Got(h, rest) => if h == HEADER then ReadFunction(rest, Some(UNKNOWN), room, check) else Bad
  }

  /** "=?" */
  const UNKNOWN: TString := [61, 63]

  // ---- The round trip

  /** What comes back for f: p is the source of f's parent, q the one the parent came back with. */
  function Loaded(f: Proto, p: Option<TString>, q: Option<TString>, strip: bool): Proto
    decreases f, |f.p| + 1
  {
    var written := WrittenSource(f, p, strip);
    var source := if written.None? then q else written;
    Proto(source, f.head, f.code, f.k, LoadedNested(f, 0, source, strip), Kept(f.debug, strip))
  }

  function LoadedNested(f: Proto, i: nat, q: Option<TString>, strip: bool): (ps: seq<Proto>)
    requires i <= |f.p|
    ensures |ps| == |f.p| - i
    decreases f, |f.p| - i
  {
    if i == |f.p| then [] else [Loaded(f.p[i], f.source, q, strip)] + LoadedNested(f, i + 1, q, strip)
  }

  /** No negative number stored in f, no nesting beyond the room there is, and every function passes
      the checker as it comes back. */
  predicate Loadable(f: Proto, p: Option<TString>, q: Option<TString>, strip: bool, room: nat,
                     check: Proto -> bool)
    decreases f, |f.p| + 1
  {
    && room > 0 && HeadLoadable(f.head) && DebugLoadable(Kept(f.debug, strip))
    && check(Loaded(f, p, q, strip))
    && NestedLoadable(f, 0, Loaded(f, p, q, strip).source, strip, room - 1, check)
  }

  predicate NestedLoadable(f: Proto, i: nat, q: Option<TString>, strip: bool, room: nat,
                           check: Proto -> bool)
    requires i <= |f.p|
    decreases f, |f.p| - i
  {
    i < |f.p| ==>
      Loadable(f.p[i], f.source, q, strip, room, check) && NestedLoadable(f, i + 1, q, strip, room, check)
  }

  lemma {:induction false} ReadFunctionBytes(f: Proto, p: Option<TString>, q: Option<TString>, strip: bool,
                                             room: nat, check: Proto -> bool, rest: seq<byte>)
    requires Sized(f)
    ensures ReadFunction(FunctionBytes(f, p, strip) + rest, q, room, check) ==
            if Loadable(f, p, q, strip, room, check) then Got(Loaded(f, p, q, strip), rest) else Bad
    decreases f, |f.p| + 1
  {
    hide ReadInt, IntBytes, ReadFront, FrontBytes, ReadDebug, DebugBytes, ReadNested, NestedBytes;
    hide HeadLoadable, DebugLoadable, LoadedNested, NestedLoadable, FunctionBytes;
    if room > 0 {
      var d := Kept(f.debug, strip);
      var x := Front(WrittenSource(f, p, strip), f.head, f.code, f.k);
      var source := Loaded(f, p, q, strip).source;
      var t3 := DebugBytes(d) + rest;
      var t2 := NestedBytes(f, 0, strip) + t3;
      var t1 := IntBytes(|f.p|) + t2;
      FunctionFront(f, p, strip, rest);
      ReadFrontBytes(x, t1);
      ReadIntBytes(|f.p|, t2);
      ReadNestedBytes(f, 0, source, strip, room - 1, check, t3);
      ReadDebugBytes(d, rest);
    }
  }

  lemma FunctionFront(f: Proto, p: Option<TString>, strip: bool, rest: seq<byte>)
    requires Sized(f)
    ensures FunctionBytes(f, p, strip) + rest ==
            FrontBytes(Front(WrittenSource(f, p, strip), f.head, f.code, f.k))
            + (IntBytes(|f.p|) + (NestedBytes(f, 0, strip) + (DebugBytes(Kept(f.debug, strip)) + rest)))
  {
    hide ReadInt, IntBytes, DebugBytes, NestedBytes, StringBytes, HeadBytes, WordsBytes, ConstantsBytes;
  }

  lemma {:induction false} ReadNestedBytes(f: Proto, i: nat, q: Option<TString>, strip: bool,
                                           room: nat, check: Proto -> bool, rest: seq<byte>)
    requires Sized(f) && i <= |f.p|
    ensures ReadNested(NestedBytes(f, i, strip) + rest, |f.p| - i, q, room, check) ==
            if NestedLoadable(f, i, q, strip, room, check) then Got(LoadedNested(f, i, q, strip), rest) else Bad
    decreases f, |f.p| - i
  {
    hide Loadable, Loaded, ReadFunction, FunctionBytes;
    if i == |f.p| {
      assert NestedBytes(f, i, strip) + rest == rest;
    } else {
      var behind := NestedBytes(f, i + 1, strip) + rest;
      assert NestedBytes(f, i, strip) + rest == FunctionBytes(f.p[i], f.source, strip) + behind;
      ReadFunctionBytes(f.p[i], f.source, q, strip, room, check, behind);
      ReadNestedBytes(f, i + 1, q, strip, room, check, rest);
    }
  }

  /** Undumping a dump, on any C level: succeeds exactly for a loadable tree, with what Loaded says. */
  lemma DumpThenUndump(f: Proto, strip: bool, room: nat, check: Proto -> bool)
    requires Sized(f)
    ensures Undump(HEADER + FunctionBytes(f, None, strip), room, check) ==
            if Loadable(f, None, Some(UNKNOWN), strip, room, check)
            then Got(Loaded(f, None, Some(UNKNOWN), strip), []) else Bad
  {
    hide ReadFunction, Loadable, Loaded;
    var body := FunctionBytes(f, None, strip);
    TakeFront(HEADER, body);
    ReadFunctionBytes(f, None, Some(UNKNOWN), strip, room, check, []);
    assert body + [] == body;
  }

  /** Every function names its source. */
  predicate Sourced(f: Proto) {
    f.source.Some? && forall i :: 0 <= i < |f.p| ==> Sourced(f.p[i])
  }

  /** The tree without debug information, every source replaced by q. */
  function Erased(f: Proto, q: Option<TString>): Proto {
    Proto(q, f.head, f.code, f.k, seq(|f.p|, i requires 0 <= i < |f.p| => Erased(f.p[i], q)), Debug([], [], []))
  }

  lemma {:induction false} NestedAt(f: Proto, i: nat, q: Option<TString>, strip: bool, j: nat)
    requires i <= j < |f.p|
    ensures LoadedNested(f, i, q, strip)[j - i] == Loaded(f.p[j], f.source, q, strip)
    decreases j - i
  {
    hide Loaded;
    if i < j {
      NestedAt(f, i + 1, q, strip, j);
    }
  }

  /** A full dump brings back the very tree exactly when every function in it names its source: one
      without comes back with its parent's, inherited sources included. */
  lemma {:induction false} FullDump(f: Proto, p: Option<TString>, q: Option<TString>)
    requires q.Some? && (p.Some? ==> q == p)
    ensures Loaded(f, p, q, false) == f <==> Sourced(f)
  {
    var g := Loaded(f, p, q, false);
    var source := g.source;
    forall i | 0 <= i < |f.p| && f.source.Some?
      ensures g.p[i] == Loaded(f.p[i], f.source, source, false)
      ensures g.p[i] == f.p[i] <==> Sourced(f.p[i])
    {
      NestedAt(f, 0, source, false, i);
      FullDump(f.p[i], f.source, source);
    }
    if Sourced(f) {
      assert g.p == f.p;
    }
  }

  /** A stripped dump brings back the tree with its debug information erased and "=?" for every source. */
  lemma {:induction false} StrippedDump(f: Proto, p: Option<TString>, q: Option<TString>)
    ensures Loaded(f, p, q, true) == Erased(f, q)
  {
    var g := Loaded(f, p, q, true);
    forall i | 0 <= i < |f.p| ensures g.p[i] == Erased(f.p[i], q) {
      NestedAt(f, 0, q, true, i);
      StrippedDump(f.p[i], f.source, q);
    }
    assert g.p == Erased(f, q).p;
  }

  // ---- Chunks and the bytecode checker

  /** What the bytecode checker reads of a function: neither sources nor the contents of the debug
      information, only the sizes of the latter. */
  function Checked(f: Proto): LuaChecker.Proto {
    var vararg := f.head.isVararg as nat;
    LuaChecker.Proto(seq(|f.code|, i requires 0 <= i < |f.code| => f.code[i] as LuaChecker.Instruction),
                     f.head.maxstacksize as nat, f.head.numparams as nat,
                     vararg % 2 == 1, vararg / 2 % 2 == 1, vararg / 4 % 2 == 1,
                     f.head.nups as nat, |f.debug.upvalues|, |f.debug.lineinfo|,
                     seq(|f.k|, i requires 0 <= i < |f.k| => f.k[i].String?),
                     seq(|f.p|, i requires 0 <= i < |f.p| => f.p[i].head.nups as nat))
  }

  /** The flags of is_vararg are its bits. */
  lemma CheckedFlags(f: Proto)
    ensures var c := Checked(f);
            exists more: nat :: f.head.isVararg as nat ==
              (if c.hasarg then 1 else 0) + (if c.isvararg then 2 else 0) + (if c.needsarg then 4 else 0) + 8 * more
  {
    var vararg := f.head.isVararg as nat;
    FlagBits(vararg);
    var more := vararg / 8;
  }

  lemma FlagBits(x: nat)
    ensures x == (if x % 2 == 1 then 1 else 0) + (if x / 2 % 2 == 1 then 2 else 0) + (if x / 4 % 2 == 1 then 4 else 0) + 8 * (x / 8)
  {
  }

  /** luaG_checkcode */
  ghost predicate Accepted(f: Proto) {
    LuaChecker.Accepts(Checked(f))
  }

  /** A tree whose functions all pass the checker, with no negative line and no deeper than there is room. */
  ghost predicate Sound(f: Proto, room: nat) {
    && room > 0 && HeadLoadable(f.head) && Accepted(f)
    && forall i :: 0 <= i < |f.p| ==> Sound(f.p[i], room - 1)
  }

  predicate DebugAll(f: Proto) {
    DebugLoadable(f.debug) && forall i :: 0 <= i < |f.p| ==> DebugAll(f.p[i])
  }

  /** The checker does not miss debug information that is not there. */
  lemma AcceptedWithoutDebug(f: Proto, g: Proto)
    requires Accepted(f) && g.head == f.head && g.code == f.code && g.k == f.k && |g.p| == |f.p|
    requires forall i :: 0 <= i < |f.p| ==> g.p[i].head == f.p[i].head
    requires g.debug == Debug([], [], [])
    ensures Accepted(g)
  {
    var a, b := Checked(f), Checked(g);
    assert b == a.(sizeupvalues := 0, sizelineinfo := 0) by {
      assert a.protos == b.protos && a.code == b.code && a.strings == b.strings;
    }
    LuaChecker.DebugPlaysNoPart(a, b);
  }

  lemma {:induction false} ErasedSound(f: Proto, q: Option<TString>, room: nat)
    requires Sound(f, room)
    ensures Sound(Erased(f, q), room)
  {
    hide Accepted;
    var g := Erased(f, q);
    forall i | 0 <= i < |f.p| ensures Sound(g.p[i], room - 1) && g.p[i].head == f.p[i].head {
      assert g.p[i] == Erased(f.p[i], q);
      ErasedSound(f.p[i], q, room - 1);
    }
    AcceptedWithoutDebug(f, g);
  }

  /** What a stripped dump needs to load is what the erased tree has to satisfy. */
  lemma {:induction false} StrippedLoads(f: Proto, p: Option<TString>, q: Option<TString>, room: nat)
    ensures Loadable(f, p, q, true, room, Accepted) <==> Sound(Erased(f, q), room)
    decreases f, |f.p| + 1
  {
    hide Accepted, LoadedNested, NestedLoadable;
    StrippedDump(f, p, q);
    if room > 0 {
      StrippedNested(f, 0, q, room - 1);
      forall j | 0 <= j < |f.p| ensures Erased(f, q).p[j] == Erased(f.p[j], q) {
      }
    }
  }

  lemma {:induction false} StrippedNested(f: Proto, i: nat, q: Option<TString>, room: nat)
    requires i <= |f.p|
    ensures NestedLoadable(f, i, q, true, room, Accepted)
            <==> forall j :: i <= j < |f.p| ==> Sound(Erased(f.p[j], q), room)
    decreases f, |f.p| - i
  {
    hide Accepted, Loadable, Sound;
    if i < |f.p| {
      StrippedLoads(f.p[i], f.source, q, room);
      StrippedNested(f, i + 1, q, room);
    }
  }

  /** A full dump of a tree that names its sources loads exactly if every function passes the checker, no
      number is negative, and it fits. */
  lemma {:induction false} FullLoads(f: Proto, p: Option<TString>, q: Option<TString>, room: nat)
    requires Sourced(f) && q.Some? && (p.Some? ==> q == p)
    ensures Loadable(f, p, q, false, room, Accepted) <==> Sound(f, room) && DebugAll(f)
    decreases f, |f.p| + 1
  {
    hide Accepted, LoadedNested, NestedLoadable;
    FullDump(f, p, q);
    if room > 0 {
      FullNested(f, 0, room - 1);
    }
  }

  lemma {:induction false} FullNested(f: Proto, i: nat, room: nat)
    requires Sourced(f) && i <= |f.p|
    ensures NestedLoadable(f, i, f.source, false, room, Accepted)
            <==> forall j :: i <= j < |f.p| ==> Sound(f.p[j], room) && DebugAll(f.p[j])
    decreases f, |f.p| - i
  {
    hide Accepted, Loadable, Sound;
    if i < |f.p| {
      FullLoads(f.p[i], f.source, f.source, room);
      FullNested(f, i + 1, room);
    }
  }

  /** With the bytecode checker: whatever it accepts can be dumped and loaded again, in full to the very
      tree, or stripped to the tree without its debug information, which it accepts, too. */
  lemma AcceptedAgain(f: Proto, room: nat)
    requires Sized(f) && Sound(f, room)
    ensures Sourced(f) && DebugAll(f) ==>
              Undump(HEADER + FunctionBytes(f, None, false), room, Accepted) == Got(f, [])
    ensures Undump(HEADER + FunctionBytes(f, None, true), room, Accepted) == Got(Erased(f, Some(UNKNOWN)), [])
  {
    hide Sound, Loadable, Loaded, Undump, FunctionBytes, Erased;
    DumpThenUndump(f, false, room, Accepted);
    DumpThenUndump(f, true, room, Accepted);
    if Sourced(f) {
      FullLoads(f, None, Some(UNKNOWN), room);
      FullDump(f, None, Some(UNKNOWN));
    }
    ErasedSound(f, Some(UNKNOWN), room);
    StrippedLoads(f, None, Some(UNKNOWN), room);
    StrippedDump(f, None, Some(UNKNOWN));
  }

  // ---- The dumper itself

  /** Appending b to what was written, unless the writer has failed before or fails on the way. */
  ghost predicate Wrote(was: seq<byte>, status: int, b: seq<byte>, now: seq<byte>, status': int) {
    && was <= now <= was + b
    && (status' == 0 ==> status == 0 && now == was + b)
    && (status != 0 ==> now == was && status' == status)
  }

  lemma ThenWrote(s0: seq<byte>, e0: int, b: seq<byte>, s1: seq<byte>, e1: int, c: seq<byte>,
                  s2: seq<byte>, e2: int)
    requires Wrote(s0, e0, b, s1, e1) && Wrote(s1, e1, c, s2, e2)
    ensures Wrote(s0, e0, b + c, s2, e2)
  {
    assert s0 + (b + c) == s0 + b + c;
  }

  class DumpState {
    const writer: nat -> int  // what the writer returns for each of its calls; 0 means it took the block
    const strip: bool
    var calls: nat
    var status: int
    var written: seq<byte>

    /** A status other than 0 is what the writer answered. */
    predicate Reported()
      reads this
    {
      status == 0 || (calls > 0 && status == writer(calls - 1))
    }

    constructor (w: nat -> int, s: bool)
      ensures Reported() && writer == w && strip == s && status == 0 && written == []
    {
      writer, strip, calls, status, written := w, s, 0, 0, [];
    }

    method DumpBlock(b: seq<byte>)
      requires Reported()
      modifies this
      ensures Reported()
      ensures Wrote(old(written), old(status), b, written, status)
    {
      if status == 0 {
        status := writer(calls);
        calls := calls + 1;
        if status == 0 {
          written := written + b;
        }
      }
    }

    /** DumpBlock, keeping the account of everything written since `was`. */
    method Put(b: seq<byte>, ghost was: seq<byte>, ghost status0: int, ghost done: seq<byte>)
      requires Wrote(was, status0, done, written, status)
      requires Reported()
      modifies this
      ensures Reported()
      ensures Wrote(was, status0, done + b, written, status)
    {
      ghost var s, e := written, status;
      DumpBlock(b);
      ThenWrote(was, status0, done, s, e, b, written, status);
    }

    method DumpString(s: Option<TString>)
      requires StringFits(s)
      requires Reported()
      modifies this
      ensures Reported()
      ensures Wrote(old(written), old(status), StringBytes(s), written, status)
    {
      if s.None? {
        DumpBlock(Bytes(0, 8));
      } else {
        DumpBlock(Bytes(|s.value| + 1, 8));
        Put(s.value + [0], old(written), old(status), Bytes(|s.value| + 1, 8));
      }
    }

    method DumpVector(ws: seq<word>)
      requires Fits(|ws|)
      requires Reported()
      modifies this
      ensures Reported()
      ensures Wrote(old(written), old(status), IntBytes(|ws|) + WordsBytes(ws), written, status)
    {
      DumpBlock(IntBytes(|ws|));
      Put(WordsBytes(ws), old(written), old(status), IntBytes(|ws|));
    }

    method DumpConstant(c: Constant)
      requires ConstantSized(c)
      requires Reported()
      modifies this
      ensures Reported()
      ensures Wrote(old(written), old(status), ConstantBytes(c), written, status)
    {
      ghost var was, e := written, status;
      match c {
        case Nil =>
          DumpBlock([0]);
        case Boolean(b) =>
          DumpBlock([1]);
          Put([if b then 1 else 0], was, e, [1]);
          assert [1] + [if b then 1 else 0] == ConstantBytes(c);
        case Number(n) =>
          DumpBlock([3]);
          Put(Bytes(n, 8), was, e, [3]);
        case String(s) =>
          DumpBlock([4]);
          ghost var s1, e1 := written, status;
          DumpString(s);
          ThenWrote(was, e, [4], s1, e1, StringBytes(s), written, status);
      }
    }

    method DumpConstants(k: seq<Constant>)
      requires Fits(|k|) && forall i :: 0 <= i < |k| ==> ConstantSized(k[i])
      requires Reported()
      modifies this
      ensures Reported()
      ensures Wrote(old(written), old(status), IntBytes(|k|) + ConstantsBytes(k), written, status)
    {
      hide Wrote, ConstantBytes, IntBytes;
      DumpBlock(IntBytes(|k|));
      ghost var was, e := written, status;
      NothingWrote(was, e);
      for i := 0 to |k|
        invariant Reported()
        invariant Wrote(was, e, ConstantsBytes(k[..i]), written, status)
      {
        ghost var s1, e1 := written, status;
        DumpConstant(k[i]);
        ThenWrote(was, e, ConstantsBytes(k[..i]), s1, e1, ConstantBytes(k[i]), written, status);
        ConstantsBytesAppend(k[..i], k[i]);
        assert k[..i] + [k[i]] == k[..i + 1];
      }
      assert k[..|k|] == k;
      ThenWrote(old(written), old(status), IntBytes(|k|), was, e, ConstantsBytes(k), written, status);
    }

    method DumpLocVars(vs: seq<LocVar>)
      requires Fits(|vs|) && forall i :: 0 <= i < |vs| ==> LocVarSized(vs[i])
      requires Reported()
      modifies this
      ensures Reported()
      ensures Wrote(old(written), old(status), IntBytes(|vs|) + LocVarsBytes(vs), written, status)
    {
      hide Wrote, IntBytes, StringBytes;
      DumpBlock(IntBytes(|vs|));
      ghost var was, e := written, status;
      NothingWrote(was, e);
      for i := 0 to |vs|
        invariant Reported()
        invariant Wrote(was, e, LocVarsBytes(vs[..i]), written, status)
      {
        ghost var s1, e1 := written, status;
        var v := vs[i];
        DumpString(v.varname);
        Put(IntBytes(v.startpc), s1, e1, StringBytes(v.varname));
        Put(IntBytes(v.endpc), s1, e1, StringBytes(v.varname) + IntBytes(v.startpc));
        assert StringBytes(v.varname) + IntBytes(v.startpc) + IntBytes(v.endpc) == LocVarBytes(v);
        ThenWrote(was, e, LocVarsBytes(vs[..i]), s1, e1, LocVarBytes(v), written, status);
        LocVarsBytesAppend(vs[..i], v);
        assert vs[..i] + [v] == vs[..i + 1];
      }
      assert vs[..|vs|] == vs;
      ThenWrote(old(written), old(status), IntBytes(|vs|), was, e, LocVarsBytes(vs), written, status);
    }

    method DumpStrings(ss: seq<Option<TString>>)
      requires Fits(|ss|) && forall i :: 0 <= i < |ss| ==> StringFits(ss[i])
      requires Reported()
      modifies this
      ensures Reported()
      ensures Wrote(old(written), old(status), IntBytes(|ss|) + StringsBytes(ss), written, status)
    {
      hide Wrote, IntBytes, StringBytes;
      DumpBlock(IntBytes(|ss|));
      ghost var was, e := written, status;
      NothingWrote(was, e);
      for i := 0 to |ss|
        invariant Reported()
        invariant Wrote(was, e, StringsBytes(ss[..i]), written, status)
      {
        ghost var s1, e1 := written, status;
        DumpString(ss[i]);
        ThenWrote(was, e, StringsBytes(ss[..i]), s1, e1, StringBytes(ss[i]), written, status);
        StringsBytesAppend(ss[..i], ss[i]);
        assert ss[..i] + [ss[i]] == ss[..i + 1];
      }
      assert ss[..|ss|] == ss;
      ThenWrote(old(written), old(status), IntBytes(|ss|), was, e, StringsBytes(ss), written, status);
    }

    method DumpDebug(d: Debug)
      requires DebugSized(d)
      requires Reported()
      modifies this
      ensures Reported()
      ensures Wrote(old(written), old(status), DebugBytes(Kept(d, strip)), written, status)
    {
      hide Wrote, IntBytes, WordsBytes, LocVarsBytes, StringsBytes;
      ghost var s0, e0 := written, status;
      var kept := Kept(d, strip);
      DumpVector(kept.lineinfo);
      ghost var s1, e1 := written, status;
      DumpLocVars(kept.locvars);
      ghost var s2, e2 := written, status;
      DumpStrings(kept.upvalues);
      ghost var a := IntBytes(|kept.lineinfo|) + WordsBytes(kept.lineinfo);
      ghost var b := IntBytes(|kept.locvars|) + LocVarsBytes(kept.locvars);
      ghost var c := IntBytes(|kept.upvalues|) + StringsBytes(kept.upvalues);
      ThenWrote(s0, e0, a, s1, e1, b, s2, e2);
      ThenWrote(s0, e0, a + b, s2, e2, c, written, status);
      assert a + b + c == DebugBytes(kept);
    }

    /** DumpFunction up to the constants. */
    method DumpFront(f: Proto, p: Option<TString>)
      requires Sized(f)
      requires Reported()
      modifies this
      ensures Reported()
      ensures Wrote(old(written), old(status),
                    FrontBytes(Front(WrittenSource(f, p, strip), f.head, f.code, f.k)), written, status)
    {
      hide Wrote, IntBytes, StringBytes, WordsBytes, ConstantsBytes;
      ghost var s0, e0 := written, status;
      var source := if f.source == p || strip then None else f.source;
      DumpString(source);
      ghost var a := StringBytes(source);
      Put(IntBytes(f.head.linedefined), s0, e0, a);
      ghost var b := a + IntBytes(f.head.linedefined);
      Put(IntBytes(f.head.lastlinedefined), s0, e0, b);
      ghost var c := b + IntBytes(f.head.lastlinedefined);
      Put([f.head.nups], s0, e0, c);
      Put([f.head.numparams], s0, e0, c + [f.head.nups]);
      Put([f.head.isVararg], s0, e0, c + [f.head.nups] + [f.head.numparams]);
      Put([f.head.maxstacksize], s0, e0, c + [f.head.nups] + [f.head.numparams] + [f.head.isVararg]);
      ghost var d := c + [f.head.nups] + [f.head.numparams] + [f.head.isVararg] + [f.head.maxstacksize];
      assert d == a + HeadBytes(f.head);
      ghost var s1, e1 := written, status;
      DumpVector(f.code);
      ghost var s2, e2 := written, status;
      ghost var code := IntBytes(|f.code|) + WordsBytes(f.code);
      ThenWrote(s0, e0, d, s1, e1, code, s2, e2);
      DumpConstants(f.k);
      ThenWrote(s0, e0, d + code, s2, e2, IntBytes(|f.k|) + ConstantsBytes(f.k), written, status);
      FrontInOrder(Front(source, f.head, f.code, f.k));
    }

    /** DumpFunction */
    method DumpFunction(f: Proto, p: Option<TString>)
      requires Sized(f)
      requires Reported()
      modifies this
      ensures Reported()
      ensures Wrote(old(written), old(status), FunctionBytes(f, p, strip), written, status)
      decreases f
    {
      hide Wrote, IntBytes, FrontBytes, DebugBytes, FunctionBytes;
      ghost var s0, e0 := written, status;
      DumpFront(f, p);
      ghost var front := FrontBytes(Front(WrittenSource(f, p, strip), f.head, f.code, f.k));
      Put(IntBytes(|f.p|), s0, e0, front);
      ghost var n := front + IntBytes(|f.p|);
      ghost var all := NestedBytes(f, 0, strip);
      ghost var done := [];
      assert n + done == n;
      for i := 0 to |f.p|
        invariant Reported()
        invariant Wrote(s0, e0, n + done, written, status)
        invariant all == done + NestedBytes(f, i, strip)
      {
        ghost var s1, e1 := written, status;
        DumpFunction(f.p[i], f.source);
        ghost var b := FunctionBytes(f.p[i], f.source, strip);
        ThenWrote(s0, e0, n + done, s1, e1, b, written, status);
        assert done + (b + NestedBytes(f, i + 1, strip)) == (done + b) + NestedBytes(f, i + 1, strip);
        assert n + done + b == n + (done + b);
        done := done + b;
      }
      assert done == all;
      ghost var s2, e2 := written, status;
      DumpDebug(f.debug);
      ThenWrote(s0, e0, n + all, s2, e2, DebugBytes(Kept(f.debug, strip)), written, status);
      FunctionInOrder(f, p, strip);
    }

    /** luaU_dump: status 0 means the whole chunk was written, any other status is the writer's. */
    method Dump(f: Proto)
      requires Sized(f) && status == 0 && written == []
      requires Reported()
      modifies this
      ensures Reported()
      ensures status == 0 ==> written == HEADER + FunctionBytes(f, None, strip)
      ensures status != 0 ==> written <= HEADER + FunctionBytes(f, None, strip)
    {
      DumpBlock(HEADER);
      ghost var s1, e1 := written, status;
      DumpFunction(f, None);
      ThenWrote([], 0, HEADER, s1, e1, FunctionBytes(f, None, strip), written, status);
    }
  }

  lemma NothingWrote(s: seq<byte>, e: int)
    ensures Wrote(s, e, [], s, e)
  {
    assert s + [] == s;
  }

  lemma {:induction false} ConstantsBytesAppend(k: seq<Constant>, c: Constant)
    ensures ConstantsBytes(k + [c]) == ConstantsBytes(k) + ConstantBytes(c)
  {
    hide ConstantBytes;
    if k == [] {
      assert ConstantsBytes([c]) == ConstantBytes(c) + [];
    } else {
      assert (k + [c])[1..] == k[1..] + [c];
      ConstantsBytesAppend(k[1..], c);
    }
  }

  lemma {:induction false} LocVarsBytesAppend(vs: seq<LocVar>, v: LocVar)
    ensures LocVarsBytes(vs + [v]) == LocVarsBytes(vs) + LocVarBytes(v)
  {
    hide LocVarBytes;
    if vs == [] {
      assert LocVarsBytes([v]) == LocVarBytes(v) + [];
    } else {
      assert (vs + [v])[1..] == vs[1..] + [v];
      LocVarsBytesAppend(vs[1..], v);
    }
  }

  lemma {:induction false} StringsBytesAppend(ss: seq<Option<TString>>, s: Option<TString>)
    ensures StringsBytes(ss + [s]) == StringsBytes(ss) + StringBytes(s)
  {
    hide StringBytes;
    if ss == [] {
      assert StringsBytes([s]) == StringBytes(s) + [];
    } else {
      assert (ss + [s])[1..] == ss[1..] + [s];
      StringsBytesAppend(ss[1..], s);
    }
  }

  lemma FrontInOrder(x: Front)
    requires Fits(|x.code|) && Fits(|x.k|)
    ensures StringBytes(x.source) + HeadBytes(x.head) + (IntBytes(|x.code|) + WordsBytes(x.code))
            + (IntBytes(|x.k|) + ConstantsBytes(x.k)) == FrontBytes(x)
  {
    hide IntBytes, StringBytes, WordsBytes, ConstantsBytes, HeadBytes;
  }

  lemma FunctionInOrder(f: Proto, p: Option<TString>, strip: bool)
    requires Sized(f)
    ensures FrontBytes(Front(WrittenSource(f, p, strip), f.head, f.code, f.k)) + IntBytes(|f.p|)
            + NestedBytes(f, 0, strip) + DebugBytes(Kept(f.debug, strip)) == FunctionBytes(f, p, strip)
  {
    hide IntBytes, NestedBytes, DebugBytes, StringBytes, HeadBytes, WordsBytes, ConstantsBytes;
  }

  // ---- The loader itself

  /** Elements already read put in front of the rest of a read. */
  function Prefixed<T>(done: seq<T>, r: Read<seq<T>>): Read<seq<T>> {
    if r.Got? then Got(done + r.value, r.rest) else Bad
  }

  lemma PrefixedNothing<T>(r: Read<seq<T>>)
    ensures Prefixed([], r) == r
  {
    if r.Got? {
      assert [] + r.value == r.value;
    }
  }

  lemma PrefixedTwice<T>(a: seq<T>, b: seq<T>, r: Read<seq<T>>)
    ensures Prefixed(a, Prefixed(b, r)) == Prefixed(a + b, r)
  {
    if r.Got? {
      assert a + (b + r.value) == a + b + r.value;
    }
  }

  lemma PrefixedAll<T>(a: seq<T>, ts: seq<byte>)
    ensures Prefixed(a, Got([], ts)) == Got(a, ts)
  {
    assert a + [] == a;
  }

  class LoadState {
    const check: Proto -> bool  // luaG_checkcode
    var input: seq<byte>        // what is left of the stream
    var nCcalls: nat

    constructor (bytes: seq<byte>, checker: Proto -> bool, level: nat)
      ensures input == bytes && check == checker && nCcalls == level
    {
      check, input, nCcalls := checker, bytes, level;
    }

    /** LoadBlock: luaZ_read reports the bytes it could not get. */
    method LoadBlock(n: nat) returns (r: Read<seq<byte>>)
      modifies `input
      ensures r == Take(old(input), n) && (r.Got? ==> input == r.rest)
    {
      r := Take(input, n);
      if r.Got? {
        input := r.rest;
      }
    }

    method LoadByte() returns (r: Read<byte>)
      modifies `input
      ensures r == TakeByte(old(input)) && (r.Got? ==> input == r.rest)
    {
      var b := LoadBlock(1);
      r := if b.Got? then Got(b.value[0], b.rest) else Bad;
    }

    method LoadInt() returns (r: Read<int32>)
      modifies `input
      ensures r == ReadInt(old(input)) && (r.Got? ==> input == r.rest && r.value >= 0)
    {
      var b := LoadBlock(4);
      if b == Bad {
        return Bad;
      }
      Powers();
      var u: int := Value(b.value);
      var x: int32 := if u < 0x8000_0000 then u else u - 0x1_0000_0000;
      r := if x < 0 then Bad else Got(x, b.rest);
    }

    method LoadString() returns (r: Read<Option<TString>>)
      modifies `input
      ensures r == ReadString(old(input)) && (r.Got? ==> input == r.rest)
    {
      var b := LoadBlock(8);
      if b == Bad {
        return Bad;
      }
      var size := Value(b.value);
      if size == 0 {
        return Got(None, b.rest);
      }
      b := LoadBlock(size);
      r := if b.Got? then Got(Some(b.value[..size - 1]), b.rest) else Bad;
    }

    method LoadVector() returns (r: Read<seq<word>>)
      modifies `input
      ensures r == ReadWords(old(input)) && (r.Got? ==> input == r.rest)
    {
      var n := LoadInt();
      if n == Bad {
        return Bad;
      }
      var b := LoadBlock(4 * n.value);
      r := if b.Got? then Got(Words(b.value, n.value), b.rest) else Bad;
    }

    method LoadConstant() returns (r: Read<Constant>)
      modifies `input
      ensures r == ReadConstant(old(input)) && (r.Got? ==> input == r.rest)
    {
      hide ReadString, Value;
      var t := LoadByte();
      if t == Bad {
        return Bad;
      }
      if t.value == 0 {
        r := Got(Nil, t.rest);
      } else if t.value == 1 {
        var b := LoadByte();
        r := if b.Got? then Got(Boolean(b.value != 0), b.rest) else Bad;
      } else if t.value == 3 {
        var b := LoadBlock(8);
        Powers();
        r := if b.Got? then Got(Number(Value(b.value)), b.rest) else Bad;
      } else if t.value == 4 {
        var s := LoadString();
        r := if s.Got? then Got(String(s.value), s.rest) else Bad;
      } else {
        r := Bad;
      }
    }

    method LoadConstants() returns (r: Read<seq<Constant>>)
      modifies `input
      ensures r == ReadCountedConstants(old(input)) && (r.Got? ==> input == r.rest)
    {
      hide ReadConstant, ReadInt;
      var n := LoadInt();
      if n == Bad {
        return Bad;
      }
      ghost var all := ReadConstants(input, n.value);
      var k: seq<Constant> := [];
      PrefixedNothing(all);
      for i := 0 to n.value
        invariant all == Prefixed(k, ReadConstants(input, n.value - i))
      {
        ghost var ts := input;
        var c := LoadConstant();
        if c == Bad {
          return Bad;
        }
        PrefixedTwice(k, [c.value], ReadConstants(input, n.value - i - 1));
        k := k + [c.value];
      }
      PrefixedAll(k, input);
      r := Got(k, input);
    }

    method LoadLocVars() returns (r: Read<seq<LocVar>>)
      modifies `input
      ensures r == ReadCountedLocVars(old(input)) && (r.Got? ==> input == r.rest)
    {
      hide ReadInt, ReadString;
      var n := LoadInt();
      if n == Bad {
        return Bad;
      }
      ghost var all := ReadLocVars(input, n.value);
      var vs: seq<LocVar> := [];
      PrefixedNothing(all);
      for i := 0 to n.value
        invariant all == Prefixed(vs, ReadLocVars(input, n.value - i))
      {
        var name := LoadString();
        if name == Bad {
          return Bad;
        }
        var startpc := LoadInt();
        if startpc == Bad {
          return Bad;
        }
        var endpc := LoadInt();
        if endpc == Bad {
          return Bad;
        }
        var v := LocVar(name.value, startpc.value, endpc.value);
        PrefixedTwice(vs, [v], ReadLocVars(input, n.value - i - 1));
        vs := vs + [v];
      }
      PrefixedAll(vs, input);
      r := Got(vs, input);
    }

    method LoadStrings() returns (r: Read<seq<Option<TString>>>)
      modifies `input
      ensures r == ReadCountedStrings(old(input)) && (r.Got? ==> input == r.rest)
    {
      hide ReadInt, ReadString;
      var n := LoadInt();
      if n == Bad {
        return Bad;
      }
      ghost var all := ReadStrings(input, n.value);
      var ss: seq<Option<TString>> := [];
      PrefixedNothing(all);
      for i := 0 to n.value
        invariant all == Prefixed(ss, ReadStrings(input, n.value - i))
      {
        var s := LoadString();
        if s == Bad {
          return Bad;
        }
        PrefixedTwice(ss, [s.value], ReadStrings(input, n.value - i - 1));
        ss := ss + [s.value];
      }
      PrefixedAll(ss, input);
      r := Got(ss, input);
    }

    method LoadDebug() returns (r: Read<Debug>)
      modifies `input
      ensures r == ReadDebug(old(input)) && (r.Got? ==> input == r.rest)
    {
      hide ReadWords, ReadCountedLocVars, ReadCountedStrings;
      var lineinfo := LoadVector();
      if lineinfo == Bad {
        return Bad;
      }
      var locvars := LoadLocVars();
      if locvars == Bad {
        return Bad;
      }
      var upvalues := LoadStrings();
      if upvalues == Bad {
        return Bad;
      }
      r := Got(Debug(lineinfo.value, locvars.value, upvalues.value), input);
    }

    method LoadHead() returns (r: Read<Head>)
      modifies `input
      ensures r == ReadHead(old(input)) && (r.Got? ==> input == r.rest)
    {
      hide ReadInt;
      var a := LoadInt();
      if a == Bad {
        return Bad;
      }
      var b := LoadInt();
      if b == Bad {
        return Bad;
      }
      ghost var four := input;
      var nups := LoadByte();
      if nups == Bad {
        return Bad;
      }
      var numparams := LoadByte();
      if numparams == Bad {
        return Bad;
      }
      var isVararg := LoadByte();
      if isVararg == Bad {
        return Bad;
      }
      var maxstack := LoadByte();
      if maxstack == Bad {
        return Bad;
      }
      assert input == four[4..];
      r := Got(Head(a.value, b.value, nups.value, numparams.value, isVararg.value, maxstack.value), input);
    }

    /** LoadFunction up to the constants. */
    method LoadFront() returns (r: Read<Front>)
      modifies `input
      ensures r == ReadFront(old(input)) && (r.Got? ==> input == r.rest)
    {
      hide ReadString, ReadHead, ReadWords, ReadCountedConstants;
      var source := LoadString();
      if source == Bad {
        return Bad;
      }
      var head := LoadHead();
      if head == Bad {
        return Bad;
      }
      var code := LoadVector();
      if code == Bad {
        return Bad;
      }
      var k := LoadConstants();
      if k == Bad {
        return Bad;
      }
      r := Got(Front(source.value, head.value, code.value, k.value), input);
    }

    /** LoadFunction */
    method LoadFunction(parent: Option<TString>) returns (r: Read<Proto>)
      requires nCcalls <= MAXCCALLS
      modifies this
      ensures r == ReadFunction(old(input), parent, MAXCCALLS - old(nCcalls), check)
      ensures r.Got? ==> input == r.rest && nCcalls == old(nCcalls)
      decreases MAXCCALLS - nCcalls
    {
      hide ReadFront, ReadDebug, ReadInt;
      nCcalls := nCcalls + 1;
      if nCcalls > MAXCCALLS {
        return Bad;
      }
      var x := LoadFront();
      if x == Bad {
        return Bad;
      }
      var source := if x.value.source.None? then parent else x.value.source;
      var n := LoadInt();
      if n == Bad {
        return Bad;
      }
      ghost var room := MAXCCALLS - nCcalls;
      ghost var all := ReadNested(input, n.value, source, room, check);
      var p: seq<Proto> := [];
      PrefixedNothing(all);
      for i := 0 to n.value
        invariant nCcalls == old(nCcalls) + 1
        invariant all == Prefixed(p, ReadNested(input, n.value - i, source, room, check))
      {
        var f := LoadFunction(source);
        if f == Bad {
          return Bad;
        }
        PrefixedTwice(p, [f.value], ReadNested(input, n.value - i - 1, source, room, check));
        p := p + [f.value];
      }
      PrefixedAll(p, input);
      var debug := LoadDebug();
      if debug == Bad {
        return Bad;
      }
      var f := Proto(source, x.value.head, x.value.code, x.value.k, p, debug.value);
      if !check(f) {
        return Bad;
      }
      nCcalls := nCcalls - 1;
      r := Got(f, input);
    }

    /** luaU_undump */
    method UndumpChunk() returns (r: Read<Proto>)
      requires nCcalls <= MAXCCALLS
      modifies this
      ensures r == Undump(old(input), MAXCCALLS - old(nCcalls), check)
    {
      hide ReadFunction;
      var h := LoadBlock(|HEADER|);
      if h == Bad || h.value != HEADER {
        return Bad;
      }
      r := LoadFunction(Some(UNKNOWN));
    }
  }
}
