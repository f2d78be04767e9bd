/** The syntax and the meaning of patterns (Lua 5.1 Reference Manual, section 5.4.1). */
module LuaPatterns {
  type Byte = b: int | 0 <= b < 256 witness 0
  type Bytes = seq<Byte>

  const L_ESC: Byte := 37
  const LUA_MAXCAPTURES: nat := 32
  const CAP_UNFINISHED: int := -1
  const CAP_POSITION: int := -2

  datatype Error =
    | EndsWithPercent
    | MissingBracket
    | MissingFrontierClass
    | UnbalancedPattern
    | TooManyCaptures
    | InvalidCaptureIndex
    | InvalidPatternCapture

  datatype Result<+T> = Success(value: T) | Failure(error: Error) {
    predicate IsFailure() { Failure? }
    function PropagateFailure<U>(): Result<U> requires Failure? { Failure(error) }
    function Extract(): T requires Success? { value }
  }

  /** A pattern or subject is read up to and including the zero that ends it. */
  function At(s: Bytes, i: nat): Byte {
    if i < |s| then s[i] else 0
  }

  // ---------------------------------------------------------------------------
  // Characters (the C locale)
  // ---------------------------------------------------------------------------

  predicate IsLower(c: Byte) { 97 <= c <= 122 }
  predicate IsUpper(c: Byte) { 65 <= c <= 90 }
  predicate IsAlpha(c: Byte) { IsLower(c) || IsUpper(c) }
  predicate IsDigit(c: Byte) { 48 <= c <= 57 }
  predicate IsAlnum(c: Byte) { IsAlpha(c) || IsDigit(c) }
  predicate IsCntrl(c: Byte) { c < 32 || c == 127 }
  predicate IsSpace(c: Byte) { c == 32 || 9 <= c <= 13 }
  predicate IsPunct(c: Byte) { 33 <= c <= 126 && !IsAlnum(c) }
  predicate IsXDigit(c: Byte) { IsDigit(c) || 65 <= c <= 70 || 97 <= c <= 102 }
  function ToLower(c: Byte): Byte { if IsUpper(c) then c + 32 else c }

  /** match_class */
  predicate MatchClass(c: Byte, cl: Byte) {
    var l := ToLower(cl);
    if l == 'a' as int then IsAlpha(c) == IsLower(cl)
    else if l == 'c' as int then IsCntrl(c) == IsLower(cl)
    else if l == 'd' as int then IsDigit(c) == IsLower(cl)
    else if l == 'l' as int then IsLower(c) == IsLower(cl)
    else if l == 'p' as int then IsPunct(c) == IsLower(cl)
    else if l == 's' as int then IsSpace(c) == IsLower(cl)
    else if l == 'u' as int then IsUpper(c) == IsLower(cl)
    else if l == 'w' as int then IsAlnum(c) == IsLower(cl)
    else if l == 'x' as int then IsXDigit(c) == IsLower(cl)
    else if l == 'z' as int then (c == 0) == IsLower(cl)
    else cl == c
  }

  predicate Among(c: Byte, chars: string) {
    exists i :: 0 <= i < |chars| && chars[i] as int == c
  }

  /** The class letters by the characters they stand for, the lists given in full. */
  lemma ClassLetters(c: Byte)
    ensures MatchClass(c, 'd' as int) <==> Among(c, "0123456789")
    ensures MatchClass(c, 'x' as int) <==> Among(c, "0123456789abcdefABCDEF")
    ensures MatchClass(c, 's' as int) <==> c == 32 || c == 9 || c == 10 || c == 11 || c == 12 || c == 13
    ensures MatchClass(c, 'z' as int) <==> c == 0
    ensures MatchClass(c, 'l' as int) <==> 'a' as int <= c <= 'z' as int
    ensures MatchClass(c, 'u' as int) <==> c + 32 < 256 && MatchClass(c + 32, 'l' as int)
  {
    var digits, hex := "0123456789", "0123456789abcdefABCDEF";
    if 48 <= c <= 57 { assert digits[c - 48] as int == c && hex[c - 48] as int == c; }
    if 97 <= c <= 102 { assert hex[c - 87] as int == c; }
    if 65 <= c <= 70 { assert hex[c - 49] as int == c; }
    if 65 <= c <= 90 { assert MatchClass(c + 32, 'l' as int); }
  }

  /** The classes by one another: letters, letters and digits, and the punctuation left over among the printing
      characters; an upper-case letter is the complement of its class, and any other byte stands for itself. */
  lemma ClassLaws(c: Byte, cl: Byte)
    ensures MatchClass(c, 'a' as int) <==> MatchClass(c, 'l' as int) || MatchClass(c, 'u' as int)
    ensures MatchClass(c, 'w' as int) <==> MatchClass(c, 'a' as int) || MatchClass(c, 'd' as int)
    ensures !(MatchClass(c, 'w' as int) && MatchClass(c, 'p' as int)) && !(MatchClass(c, 'c' as int) && MatchClass(c, 'p' as int))
    ensures MatchClass(c, 'p' as int) || MatchClass(c, 'w' as int) || MatchClass(c, 'c' as int) || c == 32 || c >= 128
    ensures c >= 128 || c == 32 ==> !MatchClass(c, 'p' as int) && !MatchClass(c, 'w' as int) && !MatchClass(c, 'c' as int)
    ensures MatchClass(c, 'c' as int) <==> c <= 31 || c == 127
    ensures Among(cl, "acdlpsuwxz") ==> (MatchClass(c, cl - 32) <==> !MatchClass(c, cl))
    ensures !Among(cl, "acdlpsuwxzACDLPSUWXZ") ==> (MatchClass(c, cl) <==> c == cl)
  {
    var letters := "acdlpsuwxzACDLPSUWXZ";
    if !Among(cl, letters) {
      NoLetter(cl, letters);
    }
  }

  lemma NoLetter(cl: Byte, letters: string)
    requires letters == "acdlpsuwxzACDLPSUWXZ" && !Among(cl, letters)
    ensures forall i :: 0 <= i < 20 ==> letters[i] as int != cl
    ensures ToLower(cl) != 'a' as int && ToLower(cl) != 'c' as int && ToLower(cl) != 'd' as int && ToLower(cl) != 'l' as int
    ensures ToLower(cl) != 'p' as int && ToLower(cl) != 's' as int && ToLower(cl) != 'u' as int && ToLower(cl) != 'w' as int
    ensures ToLower(cl) != 'x' as int && ToLower(cl) != 'z' as int
  {
    assert letters[0] == 'a' && letters[1] == 'c' && letters[2] == 'd' && letters[3] == 'l' && letters[4] == 'p';
    assert letters[5] == 's' && letters[6] == 'u' && letters[7] == 'w' && letters[8] == 'x' && letters[9] == 'z';
    assert letters[10] == 'A' && letters[11] == 'C' && letters[12] == 'D' && letters[13] == 'L' && letters[14] == 'P';
    assert letters[15] == 'S' && letters[16] == 'U' && letters[17] == 'W' && letters[18] == 'X' && letters[19] == 'Z';
  }

  // ---------------------------------------------------------------------------
  // Classes
  // ---------------------------------------------------------------------------

  /** Where the set that is open at p ends; the first character is never the closing bracket. */
  function BracketEnd(pat: Bytes, p: nat): (r: Result<nat>)
    ensures r.Success? ==> p + 1 < r.value <= |pat|
    decreases if p < |pat| then |pat| - p else 0
  {
    if At(pat, p) == 0 then Failure(MissingBracket)
    else
      var q := if At(pat, p) == L_ESC && At(pat, p + 1) != 0 then p + 2 else p + 1;
      if At(pat, q) == ']' as int then Success(q + 1) else BracketEnd(pat, q)
  }

  /** classend: where the single-character class at p ends. */
  function ClassEnd(pat: Bytes, p: nat): (r: Result<nat>)
    requires p < |pat|
    ensures r.Success? ==> p < r.value <= |pat|
    ensures r.Success? && pat[p] == '[' as int ==> p + 2 < r.value
    ensures r.Success? && pat[p] == L_ESC ==> r.value == p + 2
  {
    if pat[p] == L_ESC then
      if At(pat, p + 1) == 0 then Failure(EndsWithPercent) else Success(p + 2)
    else if pat[p] == '[' as int then BracketEnd(pat, if At(pat, p + 1) == '^' as int then p + 2 else p + 1)
    else Success(p + 1)
  }

  /** Is c one of the elements of a set listed from p up to ec: classes, ranges and characters? */
  predicate InSet(pat: Bytes, p: nat, ec: nat, c: Byte)
    decreases ec - p
  {
    if p >= ec then false
    else if At(pat, p) == L_ESC then MatchClass(c, At(pat, p + 1)) || InSet(pat, p + 2, ec, c)
    else if At(pat, p + 1) == '-' as int && p + 2 < ec then At(pat, p) <= c <= At(pat, p + 2) || InSet(pat, p + 3, ec, c)
    else At(pat, p) == c || InSet(pat, p + 1, ec, c)
  }

  /** matchbracketclass: p is at the opening bracket, ec at the closing one. */
  predicate BracketMatch(pat: Bytes, p: nat, ec: nat, c: Byte) {
    if At(pat, p + 1) == '^' as int then !InSet(pat, p + 2, ec, c) else InSet(pat, p + 1, ec, c)
  }

  /** singlematch */
  predicate SingleMatch(pat: Bytes, p: nat, ep: nat, c: Byte)
    requires ep > 0
  {
    if At(pat, p) == '.' as int then true
    else if At(pat, p) == L_ESC then MatchClass(c, At(pat, p + 1))
    else if At(pat, p) == '[' as int then BracketMatch(pat, p, ep - 1, c)
    else At(pat, p) == c
  }

  // ---------------------------------------------------------------------------
  // Pattern items
  // ---------------------------------------------------------------------------

  datatype Rep = Once | Optional | Star | Plus | Lazy

  /** `One` is a character class from p to ep with a repetition; `Malformed` is where a pattern breaks off. */
  datatype Item =
    | Open
    | Position
    | Close
    | Balance(b: Byte, e: Byte)
    | Frontier(p: nat, ep: nat)
    | Back(digit: Byte)
    | AtEnd
    | One(p: nat, ep: nat, rep: Rep)
    | Malformed(error: Error)

  function RepOf(c: Byte): Rep {
    if c == '?' as int then Optional
    else if c == '*' as int then Star
    else if c == '+' as int then Plus
    else if c == '-' as int then Lazy
    else Once
  }

  /** The single-character item at p and what follows it. */
  function ParseOne(pat: Bytes, p: nat): (Item, nat)
    requires p < |pat|
    ensures var (item, next) := ParseOne(pat, p);
            if item.Malformed? then ClassEnd(pat, p) == Failure(item.error)
            else item.One? && item.p == p && ClassEnd(pat, p) == Success(item.ep) && p < next <= |pat|
  {
    match ClassEnd(pat, p)
    case Failure(e) => (Malformed(e), p)
    case Success(ep) =>
      var rep := RepOf(At(pat, ep));
      (One(p, ep, rep), if rep == Once then ep else ep + 1)
  }

  /** The items of the pattern from p on; only the first malformed one counts. */
  function Parse(pat: Bytes, p: nat): seq<Item>
    requires p <= |pat|
    decreases |pat| - p
  {
    var c := At(pat, p);
    if c == 0 then []
    else if c == '(' as int then
      if At(pat, p + 1) == ')' as int then [Position] + Parse(pat, p + 2) else [Open] + Parse(pat, p + 1)
    else if c == ')' as int then [Close] + Parse(pat, p + 1)
    else if c == L_ESC && At(pat, p + 1) == 'b' as int then
      if At(pat, p + 2) == 0 || At(pat, p + 3) == 0 then [Malformed(UnbalancedPattern)]
      else [Balance(At(pat, p + 2), At(pat, p + 3))] + Parse(pat, p + 4)
    else if c == L_ESC && At(pat, p + 1) == 'f' as int then
      if At(pat, p + 2) != '[' as int then [Malformed(MissingFrontierClass)]
      else
        match ClassEnd(pat, p + 2)
        case Failure(e) => [Malformed(e)]
        case Success(ep) => [Frontier(p + 2, ep)] + Parse(pat, ep)
    else if c == L_ESC && IsDigit(At(pat, p + 1)) then [Back(At(pat, p + 1))] + Parse(pat, p + 2)
    else if c == '$' as int && At(pat, p + 1) == 0 then [AtEnd]
    else
      var (item, next) := ParseOne(pat, p);
      if item.Malformed? then [item] else [item] + Parse(pat, next)
  }

  // ---------------------------------------------------------------------------
  // What a list of items matches
  // ---------------------------------------------------------------------------

  datatype Capture = Capture(init: nat, len: int)
  type Captures = seq<Capture>

  /** capture_to_close: the last capture still open, or -1. */
  function ToClose(caps: Captures): (l: int)
    ensures -1 <= l < |caps|
    ensures l >= 0 ==> caps[l].len == CAP_UNFINISHED && forall k :: l < k < |caps| ==> caps[k].len != CAP_UNFINISHED
    ensures l == -1 ==> forall k :: 0 <= k < |caps| ==> caps[k].len != CAP_UNFINISHED
  {
    if caps == [] then -1
    else if caps[|caps| - 1].len == CAP_UNFINISHED then |caps| - 1
    else ToClose(caps[..|caps| - 1])
  }

  function Closed(caps: Captures, l: nat, s: nat): Captures
    requires l < |caps|
  {
    caps[l := Capture(caps[l].init, s - caps[l].init)]
  }

  /** check_capture: %1 to %9, a capture that has been closed. */
  predicate ValidBack(caps: Captures, digit: Byte) {
    0 <= digit - 49 < |caps| && caps[digit - 49].len != CAP_UNFINISHED
  }

  /** Does the subject repeat the captured string at s?  The length of a position capture, taken as an unsigned
      number, is more than any string has. */
  predicate Repeats(src: Bytes, cap: Capture, s: nat) {
    0 <= cap.len && s + cap.len <= |src| && cap.init + cap.len <= |src| && src[s..s + cap.len] == src[cap.init..cap.init + cap.len]
  }

  /** matchbalance from inside: `cont` brackets are open before position s. */
  function BalanceEnd(src: Bytes, b: Byte, e: Byte, s: nat, cont: nat): (r: int)
    ensures r == -1 || s < r <= |src|
    decreases if s < |src| then |src| - s else 0
  {
    if s >= |src| then -1
    else if src[s] == e then if cont <= 1 then s + 1 else BalanceEnd(src, b, e, s + 1, cont - 1)
    else if src[s] == b then BalanceEnd(src, b, e, s + 1, cont + 1)
    else BalanceEnd(src, b, e, s + 1, cont)
  }

  /** matchbalance: the end of the balanced string at s, or -1. */
  function Balanced(src: Bytes, b: Byte, e: Byte, s: nat): (r: int)
    ensures r == -1 || s < r <= |src|
  {
    if At(src, s) != b || s >= |src| then -1 else BalanceEnd(src, b, e, s + 1, 1)
  }

  predicate FrontierAt(src: Bytes, pat: Bytes, p: nat, ep: nat, s: nat)
    requires ep > 0
  {
    !BracketMatch(pat, p, ep - 1, if s == 0 then 0 else At(src, s - 1)) && BracketMatch(pat, p, ep - 1, At(src, s))
  }

  predicate OneAt(src: Bytes, pat: Bytes, p: nat, ep: nat, s: nat)
    requires ep > 0
  {
    s < |src| && SingleMatch(pat, p, ep, src[s])
  }

  /** How many characters from s on are in the class. */
  function MaxRun(src: Bytes, pat: Bytes, p: nat, ep: nat, s: nat): (n: nat)
    requires ep > 0
    ensures n > 0 ==> s + n <= |src|
    ensures forall k :: s <= k < s + n ==> OneAt(src, pat, p, ep, k)
    ensures !OneAt(src, pat, p, ep, s + n)
    decreases if s < |src| then |src| - s else 0
  {
    if OneAt(src, pat, p, ep, s) then 1 + MaxRun(src, pat, p, ep, s + 1) else 0
  }

  /** A way to match, or an error met on the way. */
  datatype Outcome = Hit(e: nat, caps: Captures) | Err(error: Error)

  ghost predicate ItemsOk(items: seq<Item>) {
    forall k :: 0 <= k < |items| ==> (items[k].One? || items[k].Frontier? ==> items[k].ep > 0)
  }

  /** All ways to match the items at s, in the order in which they are to be preferred: more repetitions first
      for ?, * and +, fewer first for -. */
  ghost function All(src: Bytes, pat: Bytes, items: seq<Item>, caps: Captures, s: nat): seq<Outcome>
    requires ItemsOk(items)
    decreases |items|, 0, 0
  {
    if items == [] then [Hit(s, caps)]
    else
      var rest := items[1..];
      match items[0]
      case Open =>
        if |caps| >= LUA_MAXCAPTURES then [Err(TooManyCaptures)] else All(src, pat, rest, caps + [Capture(s, CAP_UNFINISHED)], s)
      case Position =>
        if |caps| >= LUA_MAXCAPTURES then [Err(TooManyCaptures)] else All(src, pat, rest, caps + [Capture(s, CAP_POSITION)], s)
      case Close =>
        if ToClose(caps) == -1 then [Err(InvalidPatternCapture)] else All(src, pat, rest, Closed(caps, ToClose(caps), s), s)
      case Balance(b, e) => if Balanced(src, b, e, s) == -1 then [] else All(src, pat, rest, caps, Balanced(src, b, e, s))
      case Frontier(p, ep) => if FrontierAt(src, pat, p, ep, s) then All(src, pat, rest, caps, s) else []
      case Back(digit) =>
        if !ValidBack(caps, digit) then [Err(InvalidCaptureIndex)]
        else if Repeats(src, caps[digit - 49], s) then All(src, pat, rest, caps, s + caps[digit - 49].len) else []
      case AtEnd => if s == |src| then All(src, pat, rest, caps, s) else []
      case Malformed(e) => [Err(e)]
      case One(p, ep, rep) =>
        match rep
        case Once => if OneAt(src, pat, p, ep, s) then All(src, pat, rest, caps, s + 1) else []
        case Optional => (if OneAt(src, pat, p, ep, s) then All(src, pat, rest, caps, s + 1) else []) + All(src, pat, rest, caps, s)
        case Star => Most(src, pat, rest, caps, s, MaxRun(src, pat, p, ep, s))
        case Plus => if OneAt(src, pat, p, ep, s) then Most(src, pat, rest, caps, s + 1, MaxRun(src, pat, p, ep, s + 1)) else []
        case Lazy => Fewest(src, pat, rest, caps, s, MaxRun(src, pat, p, ep, s))
  }

  /** The rest after n repetitions, then after n - 1, and so on. */
  ghost function Most(src: Bytes, pat: Bytes, rest: seq<Item>, caps: Captures, s: nat, n: nat): seq<Outcome>
    requires ItemsOk(rest)
    decreases |rest|, 1, n
  {
    All(src, pat, rest, caps, s + n) + (if n > 0 then Most(src, pat, rest, caps, s, n - 1) else [])
  }

  /** The rest at once, then after one repetition, up to n. */
  ghost function Fewest(src: Bytes, pat: Bytes, rest: seq<Item>, caps: Captures, s: nat, n: nat): seq<Outcome>
    requires ItemsOk(rest)
    decreases |rest|, 1, n
  {
    All(src, pat, rest, caps, s) + (if n > 0 then Fewest(src, pat, rest, caps, s + 1, n - 1) else [])
  }

  ghost function Ways(src: Bytes, pat: Bytes, p: nat, caps: Captures, s: nat): seq<Outcome>
    requires p <= |pat|
  {
    ParseOk(pat, p);
    All(src, pat, Parse(pat, p), caps, s)
  }

  lemma {:induction false} ParseOk(pat: Bytes, p: nat)
    requires p <= |pat|
    ensures ItemsOk(Parse(pat, p))
    decreases |pat| - p
  {
    var c := At(pat, p);
    if c == 0 {
    } else if c == '(' as int {
      ParseOk(pat, if At(pat, p + 1) == ')' as int then p + 2 else p + 1);
    } else if c == ')' as int {
      ParseOk(pat, p + 1);
    } else if c == L_ESC && At(pat, p + 1) == 'b' as int {
      if At(pat, p + 2) != 0 && At(pat, p + 3) != 0 { ParseOk(pat, p + 4); }
    } else if c == L_ESC && At(pat, p + 1) == 'f' as int {
      if At(pat, p + 2) == '[' as int && ClassEnd(pat, p + 2).Success? { ParseOk(pat, ClassEnd(pat, p + 2).value); }
    } else if c == L_ESC && IsDigit(At(pat, p + 1)) {
      ParseOk(pat, p + 2);
    } else if !(c == '$' as int && At(pat, p + 1) == 0) {
      var (item, next) := ParseOne(pat, p);
      if !item.Malformed? { ParseOk(pat, next); }
    }
  }

  // ---------------------------------------------------------------------------
  // What it means to match, without any order
  // ---------------------------------------------------------------------------

  ghost predicate Repeated(src: Bytes, pat: Bytes, p: nat, ep: nat, s: nat, n: nat)
    requires ep > 0
  {
    forall k :: s <= k < s + n ==> OneAt(src, pat, p, ep, k)
  }

  predicate Allowed(rep: Rep, n: nat) {
    match rep
    case Once => n == 1
    case Optional => n <= 1
    case Plus => n >= 1
    case _ => true
  }

  /** The items can match from s to e and turn the captures into caps1. */
  ghost predicate Can(src: Bytes, pat: Bytes, items: seq<Item>, caps: Captures, s: nat, e: nat, caps1: Captures)
    requires ItemsOk(items)
    decreases |items|
  {
    if items == [] then e == s && caps1 == caps
    else
      var rest := items[1..];
      match items[0]
      case Open => |caps| < LUA_MAXCAPTURES && Can(src, pat, rest, caps + [Capture(s, CAP_UNFINISHED)], s, e, caps1)
      case Position => |caps| < LUA_MAXCAPTURES && Can(src, pat, rest, caps + [Capture(s, CAP_POSITION)], s, e, caps1)
      case Close => ToClose(caps) != -1 && Can(src, pat, rest, Closed(caps, ToClose(caps), s), s, e, caps1)
      case Balance(b, x) => Balanced(src, b, x, s) != -1 && Can(src, pat, rest, caps, Balanced(src, b, x, s), e, caps1)
      case Frontier(p, ep) => FrontierAt(src, pat, p, ep, s) && Can(src, pat, rest, caps, s, e, caps1)
      case Back(digit) =>
        ValidBack(caps, digit) && Repeats(src, caps[digit - 49], s) && Can(src, pat, rest, caps, s + caps[digit - 49].len, e, caps1)
      case AtEnd => s == |src| && Can(src, pat, rest, caps, s, e, caps1)
      case Malformed(_) => false
      case One(p, ep, rep) =>
        exists n: nat :: Allowed(rep, n) && Repeated(src, pat, p, ep, s, n) && Can(src, pat, rest, caps, s + n, e, caps1)
  }

  lemma RunRepeated(src: Bytes, pat: Bytes, p: nat, ep: nat, s: nat, n: nat)
    requires ep > 0
    ensures Repeated(src, pat, p, ep, s, n) <==> n <= MaxRun(src, pat, p, ep, s)
  {
    var m := MaxRun(src, pat, p, ep, s);
    if n > m {
      assert !OneAt(src, pat, p, ep, s + m);
    }
  }

  /** The ways of the rest after k repetitions. */
  ghost function After(src: Bytes, pat: Bytes, rest: seq<Item>, caps: Captures, s: nat, k: nat): seq<Outcome>
    requires ItemsOk(rest)
  {
    All(src, pat, rest, caps, s + k)
  }

  lemma AfterNext(src: Bytes, pat: Bytes, rest: seq<Item>, caps: Captures, s: nat, k: nat)
    requires ItemsOk(rest)
    ensures After(src, pat, rest, caps, s, k + 1) == After(src, pat, rest, caps, s + 1, k)
  {
    hide All;
    assert s + (k + 1) == (s + 1) + k;
  }

  lemma MostIs(src: Bytes, pat: Bytes, rest: seq<Item>, caps: Captures, s: nat, n: nat)
    requires ItemsOk(rest)
    ensures Most(src, pat, rest, caps, s, n) ==
              After(src, pat, rest, caps, s, n) + if n > 0 then Most(src, pat, rest, caps, s, n - 1) else []
  {
    hide All;
  }

  lemma FewestIs(src: Bytes, pat: Bytes, rest: seq<Item>, caps: Captures, s: nat, n: nat)
    requires ItemsOk(rest)
    ensures Fewest(src, pat, rest, caps, s, n) ==
              After(src, pat, rest, caps, s, 0) + if n > 0 then Fewest(src, pat, rest, caps, s + 1, n - 1) else []
  {
    hide All;
  }

  lemma {:induction false} InMost(src: Bytes, pat: Bytes, rest: seq<Item>, caps: Captures, s: nat, n: nat, h: Outcome)
    requires ItemsOk(rest)
    ensures h in Most(src, pat, rest, caps, s, n) <==> exists m: nat :: m <= n && h in After(src, pat, rest, caps, s, m)
    decreases n
  {
    hide Most, After;
    MostIs(src, pat, rest, caps, s, n);
    if n > 0 {
      InMost(src, pat, rest, caps, s, n - 1, h);
      if exists m: nat :: m <= n && h in After(src, pat, rest, caps, s, m) {
        var m: nat :| m <= n && h in After(src, pat, rest, caps, s, m);
        assert m == n || m <= n - 1;
      }
    }
  }

  lemma {:induction false} InFewest(src: Bytes, pat: Bytes, rest: seq<Item>, caps: Captures, s: nat, n: nat, h: Outcome)
    requires ItemsOk(rest)
    ensures h in Fewest(src, pat, rest, caps, s, n) <==> exists m: nat :: m <= n && h in After(src, pat, rest, caps, s, m)
    decreases n
  {
    hide Fewest, After, ItemsOk;
    FewestIs(src, pat, rest, caps, s, n);
    if n > 0 {
      InFewest(src, pat, rest, caps, s + 1, n - 1, h);
      if h in Fewest(src, pat, rest, caps, s + 1, n - 1) {
        var m: nat :| m <= n - 1 && h in After(src, pat, rest, caps, s + 1, m);
        AfterNext(src, pat, rest, caps, s, m);
      }
      if m: nat :| 0 < m <= n && h in After(src, pat, rest, caps, s, m) {
        AfterNext(src, pat, rest, caps, s, m - 1);
      }
    }
  }

  /** The list of ways has exactly the matches there are. */
  lemma {:induction false} AllComplete(src: Bytes, pat: Bytes, items: seq<Item>, caps: Captures, s: nat, e: nat, caps1: Captures)
    requires ItemsOk(items)
    ensures Hit(e, caps1) in All(src, pat, items, caps, s) <==> Can(src, pat, items, caps, s, e, caps1)
    decreases |items|
  {
    if items != [] {
      var rest := items[1..];
      match items[0]
      case Open => AllComplete(src, pat, rest, caps + [Capture(s, CAP_UNFINISHED)], s, e, caps1);
      case Position => AllComplete(src, pat, rest, caps + [Capture(s, CAP_POSITION)], s, e, caps1);
      case Close => if ToClose(caps) != -1 { AllComplete(src, pat, rest, Closed(caps, ToClose(caps), s), s, e, caps1); }
      case Balance(b, x) => if Balanced(src, b, x, s) != -1 { AllComplete(src, pat, rest, caps, Balanced(src, b, x, s), e, caps1); }
      case Frontier(_, _) => AllComplete(src, pat, rest, caps, s, e, caps1);
      case Back(digit) =>
        if ValidBack(caps, digit) && Repeats(src, caps[digit - 49], s) { AllComplete(src, pat, rest, caps, s + caps[digit - 49].len, e, caps1); }
      case AtEnd => AllComplete(src, pat, rest, caps, s, e, caps1);
      case Malformed(_) =>
      case One(p, ep, rep) => OneComplete(src, pat, items, caps, s, e, caps1);
    }
  }

  lemma OneComplete(src: Bytes, pat: Bytes, items: seq<Item>, caps: Captures, s: nat, e: nat, caps1: Captures)
    requires ItemsOk(items) && items != [] && items[0].One?
    ensures Hit(e, caps1) in All(src, pat, items, caps, s) <==> Can(src, pat, items, caps, s, e, caps1)
    decreases |items|, 0
  {
    hide All, Can, MaxRun, Repeated, Allowed;
    var rest, h := items[1..], Hit(e, caps1);
    var p, ep, rep := items[0].p, items[0].ep, items[0].rep;
    CanOne(src, pat, items, caps, s, e, caps1);
    OneInAll(src, pat, items, caps, s, h);
    if h in All(src, pat, items, caps, s) {
      var n: nat :| Allowed(rep, n) && n <= MaxRun(src, pat, p, ep, s) && h in After(src, pat, rest, caps, s, n);
      RunRepeated(src, pat, p, ep, s, n);
      AllComplete(src, pat, rest, caps, s + n, e, caps1);
    }
    if Can(src, pat, items, caps, s, e, caps1) {
      var n: nat :| Allowed(rep, n) && Repeated(src, pat, p, ep, s, n) && Can(src, pat, rest, caps, s + n, e, caps1);
      RunRepeated(src, pat, p, ep, s, n);
      AllComplete(src, pat, rest, caps, s + n, e, caps1);
      assert h in After(src, pat, rest, caps, s, n);
    }
  }

  lemma CanOne(src: Bytes, pat: Bytes, items: seq<Item>, caps: Captures, s: nat, e: nat, caps1: Captures)
    requires ItemsOk(items) && items != [] && items[0].One?
    ensures Can(src, pat, items, caps, s, e, caps1) <==>
            exists n: nat :: Allowed(items[0].rep, n) && Repeated(src, pat, items[0].p, items[0].ep, s, n) && Can(src, pat, items[1..], caps, s + n, e, caps1)
  {
  }

  /** The ways of an item with its repetition. */
  lemma AllOne(src: Bytes, pat: Bytes, items: seq<Item>, caps: Captures, s: nat)
    requires ItemsOk(items) && items != [] && items[0].One?
    ensures var (rest, p, ep) := (items[1..], items[0].p, items[0].ep);
            var (one, none) := (After(src, pat, rest, caps, s, 1), After(src, pat, rest, caps, s, 0));
            All(src, pat, items, caps, s) ==
              match items[0].rep
              case Once => if OneAt(src, pat, p, ep, s) then one else []
              case Optional => (if OneAt(src, pat, p, ep, s) then one else []) + none
              case Star => Most(src, pat, rest, caps, s, MaxRun(src, pat, p, ep, s))
              case Plus => if OneAt(src, pat, p, ep, s) then Most(src, pat, rest, caps, s + 1, MaxRun(src, pat, p, ep, s + 1)) else []
              case Lazy => Fewest(src, pat, rest, caps, s, MaxRun(src, pat, p, ep, s))
  {
    hide Most, Fewest, MaxRun, OneAt;
  }

  lemma RunOfOne(src: Bytes, pat: Bytes, p: nat, ep: nat, s: nat)
    requires ep > 0
    ensures MaxRun(src, pat, p, ep, s) >= 1 <==> OneAt(src, pat, p, ep, s)
    ensures OneAt(src, pat, p, ep, s) ==> MaxRun(src, pat, p, ep, s + 1) == MaxRun(src, pat, p, ep, s) - 1
  {
    hide OneAt;
  }

  /** Which repetition counts the ways of an item go through. */
  lemma OneInAll(src: Bytes, pat: Bytes, items: seq<Item>, caps: Captures, s: nat, h: Outcome)
    requires ItemsOk(items) && items != [] && items[0].One?
    ensures var (rest, p, ep) := (items[1..], items[0].p, items[0].ep);
            h in All(src, pat, items, caps, s) <==>
            exists n: nat :: Allowed(items[0].rep, n) && n <= MaxRun(src, pat, p, ep, s) && h in After(src, pat, rest, caps, s, n)
  {
    hide All, Most, Fewest, MaxRun, OneAt, After;
    var rest, p, ep := items[1..], items[0].p, items[0].ep;
    var run := MaxRun(src, pat, p, ep, s);
    AllOne(src, pat, items, caps, s);
    RunOfOne(src, pat, p, ep, s);
    match items[0].rep
    case Once => CountOne(src, pat, rest, caps, s, run, h);
    case Optional => assert Allowed(Optional, 0) && Allowed(Optional, 1);
    case Star => InMost(src, pat, rest, caps, s, run, h);
    case Lazy => InFewest(src, pat, rest, caps, s, run, h);
    case Plus => if run >= 1 { PlusInAll(src, pat, rest, caps, s, run, h); }
  }

  lemma CountOne(src: Bytes, pat: Bytes, rest: seq<Item>, caps: Captures, s: nat, run: nat, h: Outcome)
    requires ItemsOk(rest)
    ensures (run >= 1 && h in After(src, pat, rest, caps, s, 1)) <==>
            exists n: nat :: Allowed(Once, n) && n <= run && h in After(src, pat, rest, caps, s, n)
  {
    hide After;
    assert Allowed(Once, 1);
  }

  lemma PlusInAll(src: Bytes, pat: Bytes, rest: seq<Item>, caps: Captures, s: nat, run: nat, h: Outcome)
    requires ItemsOk(rest) && run >= 1
    ensures h in Most(src, pat, rest, caps, s + 1, run - 1) <==>
            exists n: nat :: Allowed(Plus, n) && n <= run && h in After(src, pat, rest, caps, s, n)
  {
    hide All, Most;
    InMost(src, pat, rest, caps, s + 1, run - 1, h);
    if h in Most(src, pat, rest, caps, s + 1, run - 1) {
      var m: nat :| m <= run - 1 && h in After(src, pat, rest, caps, s + 1, m);
      assert After(src, pat, rest, caps, s, m + 1) == After(src, pat, rest, caps, s + 1, m);
    }
    if exists n: nat :: Allowed(Plus, n) && n <= run && h in After(src, pat, rest, caps, s, n) {
      var n: nat :| Allowed(Plus, n) && n <= run && h in After(src, pat, rest, caps, s, n);
      assert After(src, pat, rest, caps, s + 1, n - 1) == After(src, pat, rest, caps, s, n);
    }
  }

  /** *, greedily: the first way takes the largest number of repetitions after which the rest can go on. */
  lemma {:induction false} Greedy(src: Bytes, pat: Bytes, rest: seq<Item>, caps: Captures, s: nat, n: nat, m: nat)
    requires ItemsOk(rest) && m <= n && After(src, pat, rest, caps, s, m) != []
    requires forall k: nat :: m < k <= n ==> After(src, pat, rest, caps, s, k) == []
    ensures Most(src, pat, rest, caps, s, n) != [] && Most(src, pat, rest, caps, s, n)[0] == After(src, pat, rest, caps, s, m)[0]
    decreases n
  {
    hide All;
    if m < n {
      assert After(src, pat, rest, caps, s, n) == [];
      Greedy(src, pat, rest, caps, s, n - 1, m);
    }
  }

  /** -, lazily: the first way takes the smallest number. */
  lemma {:induction false} Frugal(src: Bytes, pat: Bytes, rest: seq<Item>, caps: Captures, s: nat, n: nat, m: nat)
    requires ItemsOk(rest) && m <= n && After(src, pat, rest, caps, s, m) != []
    requires forall k: nat :: k < m ==> After(src, pat, rest, caps, s, k) == []
    ensures Fewest(src, pat, rest, caps, s, n) != [] && Fewest(src, pat, rest, caps, s, n)[0] == After(src, pat, rest, caps, s, m)[0]
    decreases n
  {
    hide All;
    if m > 0 {
      assert After(src, pat, rest, caps, s, 0) == [];
      var s1 := s + 1;
      forall k: nat | k < m - 1 ensures After(src, pat, rest, caps, s1, k) == [] {
        assert After(src, pat, rest, caps, s, k + 1) == After(src, pat, rest, caps, s1, k);
      }
      assert After(src, pat, rest, caps, s + 1, m - 1) == After(src, pat, rest, caps, s, m);
      Frugal(src, pat, rest, caps, s + 1, n - 1, m - 1);
    }
  }

  /** A match lies inside the subject. */
  lemma {:induction false} CanBounds(src: Bytes, pat: Bytes, items: seq<Item>, caps: Captures, s: nat, e: nat, caps1: Captures)
    requires ItemsOk(items) && s <= |src| && Can(src, pat, items, caps, s, e, caps1)
    ensures s <= e <= |src|
    decreases |items|
  {
    if items != [] {
      var rest := items[1..];
      match items[0]
      case Open => CanBounds(src, pat, rest, caps + [Capture(s, CAP_UNFINISHED)], s, e, caps1);
      case Position => CanBounds(src, pat, rest, caps + [Capture(s, CAP_POSITION)], s, e, caps1);
      case Close => CanBounds(src, pat, rest, Closed(caps, ToClose(caps), s), s, e, caps1);
      case Balance(b, x) => CanBounds(src, pat, rest, caps, Balanced(src, b, x, s), e, caps1);
      case Frontier(_, _) => CanBounds(src, pat, rest, caps, s, e, caps1);
      case Back(digit) => CanBounds(src, pat, rest, caps, s + caps[digit - 49].len, e, caps1);
      case AtEnd => CanBounds(src, pat, rest, caps, s, e, caps1);
      case One(p, ep, rep) =>
        var n: nat :| Allowed(rep, n) && Repeated(src, pat, p, ep, s, n) && Can(src, pat, rest, caps, s + n, e, caps1);
        if n > 0 { assert OneAt(src, pat, p, ep, s + n - 1); }
        CanBounds(src, pat, rest, caps, s + n, e, caps1);
      case _ =>
    }
  }

  lemma HitBounds(src: Bytes, pat: Bytes, p: nat, caps: Captures, s: nat)
    requires p <= |pat| && s <= |src|
    ensures var ways := Ways(src, pat, p, caps, s); ways != [] && ways[0].Hit? ==> s <= ways[0].e <= |src|
  {
    ParseOk(pat, p);
    var ways := Ways(src, pat, p, caps, s);
    if ways != [] && ways[0].Hit? {
      assert Hit(ways[0].e, ways[0].caps) in All(src, pat, Parse(pat, p), caps, s);
      AllComplete(src, pat, Parse(pat, p), caps, s, ways[0].e, ways[0].caps);
      CanBounds(src, pat, Parse(pat, p), caps, s, ways[0].e, ways[0].caps);
    }
  }

  // ---------------------------------------------------------------------------
  // Searching
  // ---------------------------------------------------------------------------

  /** The first position from s on, one only if the pattern is anchored, at which there is a way to match (or
      to fail with an error); -1 if there is none. */
  ghost function FirstPosition(src: Bytes, pat: Bytes, p: nat, s: nat, anchor: bool): (r: int)
    requires p <= |pat| && s <= |src|
    ensures r == -1 || s <= r <= |src|
    ensures r >= 0 ==> Ways(src, pat, p, [], r) != []
    ensures !anchor && r >= 0 ==> forall k: nat :: s <= k < r ==> Ways(src, pat, p, [], k) == []
    ensures !anchor && r == -1 ==> forall k: nat :: s <= k <= |src| ==> Ways(src, pat, p, [], k) == []
    decreases |src| - s
  {
    if Ways(src, pat, p, [], s) != [] then s
    else if s < |src| && !anchor then FirstPosition(src, pat, p, s + 1, anchor)
    else -1
  }

  /** What add_value puts in place of a match: None stands for nil or false. */
  datatype Option<+T> = None | Some(value: T)
  type Replacement = (Captures, nat, nat) -> Option<Bytes>

  /** The result of gsub from position s on: each match is replaced once, what lies between is copied. */
  ghost function Substituted(src: Bytes, pat: Bytes, p: nat, rep: Replacement, s: nat, left: nat, anchor: bool): (r: Result<(Bytes, nat)>)
    requires p <= |pat| && s <= |src|
    decreases |src| - s, left
  {
    if left == 0 then Success((src[s..], 0))
    else
      var ways := Ways(src, pat, p, [], s);
      if ways != [] && ways[0].Err? then Failure(ways[0].error)
      else
        var (text, e, k) := if ways == [] then ([], s, 0) else (ReplacedBy(src, rep, s, ways[0].e, ways[0].caps), ways[0].e, 1);
        if e > s && e <= |src| then
          Prepend(text, k, if anchor then Success((src[e..], 0)) else Substituted(src, pat, p, rep, e, left - k, anchor))
        else if s < |src| then
          Prepend(text + [src[s]], k, if anchor then Success((src[s + 1..], 0)) else Substituted(src, pat, p, rep, s + 1, left - k, anchor))
        else Success((text, k))
  }

  ghost function Prepend(b: Bytes, n: nat, r: Result<(Bytes, nat)>): Result<(Bytes, nat)> {
    match r
    case Failure(e) => Failure(e)
    case Success((t, k)) => Success((b + t, n + k))
  }

  /** add_value: the replacement, or the match itself. */
  function ReplacedBy(src: Bytes, rep: Replacement, s: nat, e: nat, caps: Captures): Bytes {
    var value := rep(caps, s, e);
    if value.Some? then value.value else Piece(src, s, e)
  }

  function Piece(src: Bytes, s: nat, e: nat): Bytes {
    if s <= e <= |src| then src[s..e] else []
  }

  /** A match that gsub replaces. */
  datatype Occurrence = Occurrence(at: nat, e: nat, caps: Captures)

  /** The subject from s on with each match replaced: by what rep gives, or by itself where rep gives nothing. */
  function Assembled(src: Bytes, rep: Replacement, s: nat, ms: seq<Occurrence>): Bytes
    decreases |ms|
  {
    if ms == [] then Piece(src, s, |src|)
    else
      var m := ms[0];
      Piece(src, s, m.at)
      + (match rep(m.caps, m.at, m.e) case Some(value) => value case None => Piece(src, m.at, m.e))
      + Assembled(src, rep, m.e, ms[1..])
  }

  /** ms are the matches from s on: each one leftmost and the first way there, at most `left` of them, the first at s
      and the only one if the pattern is anchored.  The next one starts behind it, past one more byte if it is empty.
      After them comes no match, or one that fails with the error. */
  ghost predicate Matches(src: Bytes, pat: Bytes, p: nat, s: nat, left: nat, anchor: bool, ms: seq<Occurrence>, error: Option<Error>)
    requires p <= |pat|
    decreases |ms|
  {
    if ms == [] then
      match error
      case None => left == 0 || forall k: nat :: s <= k <= (if anchor then s else |src|) ==> Ways(src, pat, p, [], k) == []
      case Some(e) => left > 0 && exists k: nat :: ErrsAt(src, pat, p, s, k, anchor, e)
    else
      var m := ms[0];
      && left > 0 && s <= m.at <= m.e <= |src| && (anchor ==> m.at == s)
      && (forall k: nat :: s <= k < m.at ==> Ways(src, pat, p, [], k) == [])
      && (var ways := Ways(src, pat, p, [], m.at); ways != [] && ways[0] == Hit(m.e, m.caps))
      && var next := if m.e > m.at then m.e else m.at + 1;
         if anchor || next > |src| then |ms| == 1 && error == None
         else Matches(src, pat, p, next, left - 1, anchor, ms[1..], error)
  }

  ghost predicate ErrsAt(src: Bytes, pat: Bytes, p: nat, s: nat, at: nat, anchor: bool, e: Error)
    requires p <= |pat|
  {
    && s <= at <= |src| && (anchor ==> at == s) && (forall k: nat :: s <= k < at ==> Ways(src, pat, p, [], k) == [])
    && var ways := Ways(src, pat, p, [], at); ways != [] && ways[0] == Err(e)
  }

  /** gsub: what lies between the matches, with rep's values in their places, and their number. */
  lemma {:induction false} SubstitutedPieces(src: Bytes, pat: Bytes, p: nat, rep: Replacement, s: nat, left: nat, anchor: bool)
    returns (ms: seq<Occurrence>, error: Option<Error>)
    requires p <= |pat| && s <= |src|
    ensures Matches(src, pat, p, s, left, anchor, ms, error)
    ensures Substituted(src, pat, p, rep, s, left, anchor) ==
              match error case None => Success((Assembled(src, rep, s, ms), |ms|)) case Some(e) => Failure(e)
    decreases |src| - s, left
  {
    hide Ways, Assembled, Matches, ErrsAt;
    ms, error := [], None;
    var ways := Ways(src, pat, p, [], s);
    HitBounds(src, pat, p, [], s);
    if left > 0 && ways == [] { SubstitutedMiss(src, pat, p, rep, s, left, anchor); }
    if left == 0 || (ways == [] && (anchor || s == |src|)) {
      NoMatch(src, pat, p, rep, s, left, anchor);
    } else if ways == [] {
      ms, error := SubstitutedPieces(src, pat, p, rep, s + 1, left, anchor);
      LaterMatch(src, pat, p, rep, s, left, ms, error);
    } else if ways[0].Err? {
      error := Some(ways[0].error);
      ErrorHere(src, pat, p, s, left, anchor, ways[0].error);
    } else {
      var m := Occurrence(s, ways[0].e, ways[0].caps);
      var next := if m.e > s then m.e else s + 1;
      if !anchor && next <= |src| {
        ms, error := SubstitutedPieces(src, pat, p, rep, next, left - 1, anchor);
      }
      MatchHere(src, pat, p, rep, m, left, anchor, ms, error);
      AssembledHere(src, rep, m, next, ms);
      SubstitutedHit(src, pat, p, rep, s, left, anchor);
      var text := ReplacedBy(src, rep, s, m.e, m.caps);
      if m.e == s < |src| {
        assert text + [src[s]] + Assembled(src, rep, next, ms) == text + ([src[s]] + Assembled(src, rep, next, ms));
      }
      ms := [m] + ms;
    }
  }

  lemma SubstitutedHit(src: Bytes, pat: Bytes, p: nat, rep: Replacement, s: nat, left: nat, anchor: bool)
    requires p <= |pat| && s <= |src| && left > 0
    requires var ways := Ways(src, pat, p, [], s); ways != [] && ways[0].Hit? && s <= ways[0].e <= |src|
    ensures var m := Ways(src, pat, p, [], s)[0];
            var text := ReplacedBy(src, rep, s, m.e, m.caps);
            Substituted(src, pat, p, rep, s, left, anchor) ==
              if m.e > s then Prepend(text, 1, if anchor then Success((src[m.e..], 0)) else Substituted(src, pat, p, rep, m.e, left - 1, anchor))
              else if s < |src| then
                Prepend(text + [src[s]], 1, if anchor then Success((src[s + 1..], 0)) else Substituted(src, pat, p, rep, s + 1, left - 1, anchor))
              else Success((text + src[s..], 1))
  {
    hide Ways, ReplacedBy;
    var m := Ways(src, pat, p, [], s)[0];
    var text := ReplacedBy(src, rep, s, m.e, m.caps);
    if s == |src| { assert text + src[s..] == text; }
  }

  lemma SubstitutedMiss(src: Bytes, pat: Bytes, p: nat, rep: Replacement, s: nat, left: nat, anchor: bool)
    requires p <= |pat| && s <= |src| && left > 0 && Ways(src, pat, p, [], s) == []
    ensures Substituted(src, pat, p, rep, s, left, anchor) ==
              if s == |src| || anchor then Success((src[s..], 0))
              else Prepend([src[s]], 0, Substituted(src, pat, p, rep, s + 1, left, anchor))
  {
    hide Ways;
    if s < |src| {
      assert [] + [src[s]] == [src[s]];
      assert [src[s]] + src[s + 1..] == src[s..];
    } else {
      assert src[s..] == [];
    }
  }

  /** gsub with a replacement that always gives nil or false gives the subject back. */
  lemma {:induction false} SubstitutedNothing(src: Bytes, pat: Bytes, p: nat, rep: Replacement, s: nat, left: nat, anchor: bool)
    requires p <= |pat| && s <= |src| && forall caps, i, j :: rep(caps, i, j).None?
    ensures var r := Substituted(src, pat, p, rep, s, left, anchor); r.Success? ==> r.value.0 == src[s..] && r.value.1 <= left
    decreases |src| - s, left
  {
    hide Ways, Substituted, ReplacedBy;
    var ways := Ways(src, pat, p, [], s);
    HitBounds(src, pat, p, [], s);
    if left == 0 || (ways != [] && ways[0].Err?) {
      SubstitutedStops(src, pat, p, rep, s, left, anchor);
    } else if ways == [] {
      SubstitutedMiss(src, pat, p, rep, s, left, anchor);
      if s < |src| && !anchor {
        SubstitutedNothing(src, pat, p, rep, s + 1, left, anchor);
        assert [src[s]] + src[s + 1..] == src[s..];
      }
    } else {
      var e := ways[0].e;
      SubstitutedHit(src, pat, p, rep, s, left, anchor);
      NothingReplaced(src, rep, s, e, ways[0].caps);
      if !anchor && (e > s || s < |src|) {
        SubstitutedNothing(src, pat, p, rep, if e > s then e else s + 1, left - 1, anchor);
      }
    }
  }

  lemma NothingReplaced(src: Bytes, rep: Replacement, s: nat, e: nat, caps: Captures)
    requires s <= e <= |src| && rep(caps, s, e).None?
    ensures ReplacedBy(src, rep, s, e, caps) + src[e..] == src[s..]
    ensures e == s < |src| ==> ReplacedBy(src, rep, s, e, caps) + [src[s]] + src[s + 1..] == src[s..]
  {
  }

  lemma SubstitutedStops(src: Bytes, pat: Bytes, p: nat, rep: Replacement, s: nat, left: nat, anchor: bool)
    requires p <= |pat| && s <= |src| && (left == 0 || (Ways(src, pat, p, [], s) != [] && Ways(src, pat, p, [], s)[0].Err?))
    ensures Substituted(src, pat, p, rep, s, left, anchor) ==
              if left == 0 then Success((src[s..], 0)) else Failure(Ways(src, pat, p, [], s)[0].error)
  {
    hide Ways;
  }

  lemma NoMatch(src: Bytes, pat: Bytes, p: nat, rep: Replacement, s: nat, left: nat, anchor: bool)
    requires p <= |pat| && s <= |src| && (left == 0 || (Ways(src, pat, p, [], s) == [] && (anchor || s == |src|)))
    ensures Matches(src, pat, p, s, left, anchor, [], None) && Assembled(src, rep, s, []) == src[s..]
  {
    hide Ways;
  }

  lemma ErrorHere(src: Bytes, pat: Bytes, p: nat, s: nat, left: nat, anchor: bool, e: Error)
    requires p <= |pat| && s <= |src| && left > 0
    requires var ways := Ways(src, pat, p, [], s); ways != [] && ways[0] == Err(e)
    ensures Matches(src, pat, p, s, left, anchor, [], Some(e))
  {
    hide Ways;
    assert ErrsAt(src, pat, p, s, s, anchor, e);
  }

  lemma LaterMatch(src: Bytes, pat: Bytes, p: nat, rep: Replacement, s: nat, left: nat, ms: seq<Occurrence>, error: Option<Error>)
    requires p <= |pat| && s < |src| && left > 0 && Ways(src, pat, p, [], s) == []
    requires Matches(src, pat, p, s + 1, left, false, ms, error)
    ensures Matches(src, pat, p, s, left, false, ms, error)
    ensures Assembled(src, rep, s, ms) == [src[s]] + Assembled(src, rep, s + 1, ms)
  {
    hide Ways;
    AssembledOnward(src, rep, s, ms);
    if ms == [] {
      if error.Some? {
        var k: nat :| ErrsAt(src, pat, p, s + 1, k, false, error.value);
        assert ErrsAt(src, pat, p, s, k, false, error.value);
      }
    }
  }

  lemma MatchHere(src: Bytes, pat: Bytes, p: nat, rep: Replacement, m: Occurrence, left: nat, anchor: bool, ms: seq<Occurrence>, error: Option<Error>)
    requires p <= |pat| && left > 0 && m.at <= m.e <= |src|
    requires var ways := Ways(src, pat, p, [], m.at); ways != [] && ways[0] == Hit(m.e, m.caps)
    requires var next := if m.e > m.at then m.e else m.at + 1;
             if anchor || next > |src| then ms == [] && error == None else Matches(src, pat, p, next, left - 1, anchor, ms, error)
    ensures Matches(src, pat, p, m.at, left, anchor, [m] + ms, error)
    ensures ms == [] || (if m.e > m.at then m.e else m.at + 1) <= ms[0].at <= |src|
  {
    hide Ways;
    assert ([m] + ms)[1..] == ms;
  }

  lemma AssembledHere(src: Bytes, rep: Replacement, m: Occurrence, next: nat, ms: seq<Occurrence>)
    requires m.at <= m.e <= |src| && next == if m.e > m.at then m.e else m.at + 1
    requires ms == [] || next <= ms[0].at <= |src|
    ensures Assembled(src, rep, m.at, [m] + ms) ==
              ReplacedBy(src, rep, m.at, m.e, m.caps) +
              (if m.e < next <= |src| then [src[m.e]] + Assembled(src, rep, next, ms) else Assembled(src, rep, m.e, ms))
    ensures ms == [] ==> Assembled(src, rep, m.e, ms) == src[m.e..]
    ensures ms == [] && next <= |src| ==> Assembled(src, rep, next, ms) == src[next..]
  {
    hide Assembled;
    AssembledFirst(src, rep, m, ms);
    AssembledRest(src, rep, m.e);
    AssembledRest(src, rep, next);
    if m.e < next <= |src| { AssembledOnward(src, rep, m.e, ms); }
  }

  lemma AssembledRest(src: Bytes, rep: Replacement, s: nat)
    ensures s <= |src| ==> Assembled(src, rep, s, []) == src[s..]
  {
  }

  lemma AssembledFirst(src: Bytes, rep: Replacement, m: Occurrence, ms: seq<Occurrence>)
    requires m.at <= m.e <= |src|
    ensures Assembled(src, rep, m.at, [m] + ms) == ReplacedBy(src, rep, m.at, m.e, m.caps) + Assembled(src, rep, m.e, ms)
  {
    hide Piece;
    assert ([m] + ms)[1..] == ms && Piece(src, m.at, m.at) == [] by { assert src[m.at..m.at] == []; NoPiece(src, m.at); }
  }

  lemma NoPiece(src: Bytes, s: nat)
    ensures Piece(src, s, s) == []
  {
  }

  lemma AssembledOnward(src: Bytes, rep: Replacement, s: nat, ms: seq<Occurrence>)
    requires s < |src| && (ms == [] || s < ms[0].at <= |src|)
    ensures Assembled(src, rep, s, ms) == [src[s]] + Assembled(src, rep, s + 1, ms)
  {
    if ms != [] { assert Piece(src, s, ms[0].at) == [src[s]] + Piece(src, s + 1, ms[0].at); }
  }
}
