/** The backtracking matcher (match and its helpers in lstrlib.c). */
module LuaStrLib {
  import opened LuaPatterns

  /** NULL, the end of the match, or luaL_error. */
  datatype Answer = Null | Found(e: nat) | Raise(error: Error)

  /** What the matcher has to answer when these are the ways to match: the first of them. */
  ghost predicate Answers(ways: seq<Outcome>, caps0: Captures, r: Answer, caps: Captures) {
    if ways == [] then r == Null && caps == caps0
    else
      match ways[0]
      case Hit(e, c) => r == Found(e) && caps == c
      case Err(x) => r == Raise(x)
  }

  lemma AnswersAppend(ways: seq<Outcome>, more: seq<Outcome>, caps0: Captures, r: Answer, caps: Captures)
    requires Answers(ways, caps0, r, caps)
    ensures r != Null ==> Answers(ways + more, caps0, r, caps)
    ensures r == Null ==> caps == caps0 && ways == [] && ways + more == more
  {
  }

  /** classend */
  method FindClassEnd(pat: Bytes, p0: nat) returns (r: Result<nat>)
    requires p0 < |pat|
    ensures r == ClassEnd(pat, p0)
  {
    var p := p0 + 1;
    if pat[p0] == L_ESC {
      if At(pat, p) == 0 {
        return Failure(EndsWithPercent);
      }
      return Success(p + 1);
    }
    if pat[p0] == '[' as int {
      if At(pat, p) == '^' as int {
        p := p + 1;
      }
      ghost var start := p;
      while true
        invariant BracketEnd(pat, p) == BracketEnd(pat, start)
        decreases if p < |pat| then |pat| - p else 0
      {
        if At(pat, p) == 0 {
          return Failure(MissingBracket);
        }
        var c := At(pat, p);
        p := p + 1;
        if c == L_ESC && At(pat, p) != 0 {
          p := p + 1;
        }
        if At(pat, p) == ']' as int {
          break;
        }
      }
      return Success(p + 1);
    }
    r := Success(p);
  }

  /** matchbracketclass */
  method MatchBracketClass(pat: Bytes, p0: nat, ec: nat, c: Byte) returns (b: bool)
    ensures b == BracketMatch(pat, p0, ec, c)
  {
    var sig, p := true, p0;
    if At(pat, p + 1) == '^' as int {
      sig := false;
      p := p + 1;
    }
    ghost var start := p + 1;
    p := p + 1;
    while p < ec
      invariant InSet(pat, p, ec, c) == InSet(pat, start, ec, c)
      decreases ec - p
    {
      if At(pat, p) == L_ESC {
        p := p + 1;
        if MatchClass(c, At(pat, p)) {
          return sig;
        }
      } else if At(pat, p + 1) == '-' as int && p + 2 < ec {
        p := p + 2;
        if At(pat, p - 2) <= c && c <= At(pat, p) {
          return sig;
        }
      } else if At(pat, p) == c {
        return sig;
      }
      p := p + 1;
    }
    b := !sig;
  }

  /** singlematch */
  method IsSingleMatch(pat: Bytes, p: nat, ep: nat, c: Byte) returns (b: bool)
    requires ep > 0
    ensures b == SingleMatch(pat, p, ep, c)
  {
    if At(pat, p) == '.' as int {
      b := true;
    } else if At(pat, p) == L_ESC {
      b := MatchClass(c, At(pat, p + 1));
    } else if At(pat, p) == '[' as int {
      b := MatchBracketClass(pat, p, ep - 1, c);
    } else {
      b := At(pat, p) == c;
    }
  }

  class MatchState {
    const src: Bytes
    const pat: Bytes
    var level: nat
    const capture: array<Capture>

    constructor (src: Bytes, pat: Bytes)
      ensures Valid() && this.src == src && this.pat == pat && level == 0 && fresh(capture)
    {
      this.src, this.pat, level := src, pat, 0;
      capture := new Capture[LUA_MAXCAPTURES](_ => Capture(0, 0));
    }

    predicate Valid()
      reads this
    {
      capture.Length == LUA_MAXCAPTURES && level <= LUA_MAXCAPTURES
    }

    /** The captures in use. */
    ghost function Caps(): Captures
      reads this, capture
      requires Valid()
    {
      capture[..level]
    }

    /** matchbalance */
    method MatchBalance(s0: nat, b: Byte, e: Byte) returns (r: int)
      requires b != 0
      ensures r == Balanced(src, b, e, s0)
    {
      var s := s0;
      if At(src, s) != b {
        return -1;
      }
      var cont := 1;
      s := s + 1;
      while s < |src|
        invariant cont >= 1 && s0 < s
        invariant BalanceEnd(src, b, e, s, cont) == BalanceEnd(src, b, e, s0 + 1, 1)
        decreases |src| - s
      {
        if src[s] == e {
          cont := cont - 1;
          if cont == 0 {
            return s + 1;
          }
        } else if src[s] == b {
          cont := cont + 1;
        }
        s := s + 1;
      }
      r := -1;
    }

    /** capture_to_close */
    method CaptureToClose() returns (l: int)
      requires Valid()
      ensures l == ToClose(Caps())
    {
      l := level - 1;
      while l >= 0
        invariant -1 <= l < level
        invariant forall k :: l < k < level ==> capture[k].len != CAP_UNFINISHED
      {
        if capture[l].len == CAP_UNFINISHED {
          return;
        }
        l := l - 1;
      }
    }

    /** max_expand */
    method MaxExpand(s: nat, p: nat, ep: nat) returns (r: Answer)
      requires Valid() && p < ep < |pat| && s <= |src|
      modifies this`level, capture
      ensures Valid()
      ensures var rest := Parse(pat, ep + 1);
              ItemsOk(rest) && Answers(Most(src, pat, rest, old(Caps()), s, MaxRun(src, pat, p, ep, s)), old(Caps()), r, Caps())
      decreases |pat| - ep, 1
    {
      var i := CountRun(s, p, ep);
      r := TryFewer(s, i, ep);
    }

    method CountRun(s: nat, p: nat, ep: nat) returns (i: nat)
      requires p < ep && s <= |src|
      ensures i == MaxRun(src, pat, p, ep, s) && s + i <= |src|
    {
      i := 0;
      var more := OneMore(s + i, p, ep);
      while more
        invariant s + i <= |src| && more == OneAt(src, pat, p, ep, s + i)
        invariant MaxRun(src, pat, p, ep, s) == i + MaxRun(src, pat, p, ep, s + i)
        decreases |src| - i
      {
        i := i + 1;
        more := OneMore(s + i, p, ep);
      }
    }

    /** Keeps trying to match the rest, giving back one repetition at a time. */
    method TryFewer(s: nat, top: nat, ep: nat) returns (r: Answer)
      requires Valid() && ep < |pat| && s + top <= |src|
      modifies this`level, capture
      ensures Valid()
      ensures var rest := Parse(pat, ep + 1); ItemsOk(rest) && Answers(Most(src, pat, rest, old(Caps()), s, top), old(Caps()), r, Caps())
      decreases |pat| - ep, 0
    {
      hide Parse, Most, All;
      ghost var rest, caps0 := Parse(pat, ep + 1), Caps();
      ParseOk(pat, ep + 1);
      var i: int := top;
      while i >= 0
        invariant -1 <= i <= top && Valid() && Caps() == caps0
        invariant Most(src, pat, rest, caps0, s, top) == if i >= 0 then Most(src, pat, rest, caps0, s, i) else []
        decreases i
      {
        r := Match(s + i, ep + 1);
        ghost var fewer := if i > 0 then Most(src, pat, rest, caps0, s, i - 1) else [];
        MostIs(src, pat, rest, caps0, s, i);
        AnswersAppend(All(src, pat, rest, caps0, s + i), fewer, caps0, r, Caps());
        if r != Null {
          return;
        }
        i := i - 1;
      }
      r := Null;
    }

    method OneMore(s: nat, p: nat, ep: nat) returns (b: bool)
      requires ep > 0
      ensures b == OneAt(src, pat, p, ep, s) && (b ==> s < |src|)
    {
      if s < |src| {
        b := IsSingleMatch(pat, p, ep, src[s]);
      } else {
        b := false;
      }
    }

    /** min_expand */
    method MinExpand(s0: nat, p: nat, ep: nat) returns (r: Answer)
      requires Valid() && p < ep < |pat| && s0 <= |src|
      modifies this`level, capture
      ensures Valid()
      ensures var rest := Parse(pat, ep + 1);
              ItemsOk(rest) && Answers(Fewest(src, pat, rest, old(Caps()), s0, MaxRun(src, pat, p, ep, s0)), old(Caps()), r, Caps())
      decreases |pat| - ep, 0
    {
      hide Parse, Fewest, MaxRun, OneAt;
      ghost var rest, caps0 := Parse(pat, ep + 1), Caps();
      ParseOk(pat, ep + 1);
      var s := s0;
      while true
        invariant s0 <= s <= |src| && Valid() && Caps() == caps0
        invariant Fewest(src, pat, rest, caps0, s, MaxRun(src, pat, p, ep, s)) == Fewest(src, pat, rest, caps0, s0, MaxRun(src, pat, p, ep, s0))
        decreases |src| - s
      {
        r := Match(s, ep + 1);
        ghost var n := MaxRun(src, pat, p, ep, s);
        RunOfOne(src, pat, p, ep, s);
        FewestIs(src, pat, rest, caps0, s, n);
        AnswersAppend(All(src, pat, rest, caps0, s), if n > 0 then Fewest(src, pat, rest, caps0, s + 1, n - 1) else [], caps0, r, Caps());
        if r != Null {
          return;
        }
        var more := OneMore(s, p, ep);
        if !more {
          return;
        }
        s := s + 1;
      }
    }

    /** start_capture */
    method StartCapture(s: nat, p: nat, what: int) returns (r: Answer)
      requires Valid() && p <= |pat| && s <= |src|
      modifies this`level, capture
      ensures Valid()
      ensures Answers(if old(level) >= LUA_MAXCAPTURES then [Err(TooManyCaptures)]
                      else Ways(src, pat, p, old(Caps()) + [Capture(s, what)], s), old(Caps()), r, Caps())
      decreases |pat| - p, 2
    {
      if level >= LUA_MAXCAPTURES {
        return Raise(TooManyCaptures);
      }
      ghost var caps0 := Caps();
      capture[level] := Capture(s, what);
      level := level + 1;
      assert Caps() == caps0 + [Capture(s, what)];
      r := Match(s, p);
      if r == Null {
        level := level - 1;
        assert Caps() == caps0;
      }
    }

    /** end_capture */
    method EndCapture(s: nat, p: nat) returns (r: Answer)
      requires Valid() && p <= |pat| && s <= |src|
      modifies this`level, capture
      ensures Valid()
      ensures var l := ToClose(old(Caps()));
              Answers(if l == -1 then [Err(InvalidPatternCapture)] else Ways(src, pat, p, Closed(old(Caps()), l, s), s), old(Caps()), r, Caps())
      decreases |pat| - p, 2
    {
      var l := CaptureToClose();
      if l == -1 {
        return Raise(InvalidPatternCapture);
      }
      ghost var caps0 := Caps();
      capture[l] := Capture(capture[l].init, s - capture[l].init);
      assert Caps() == Closed(caps0, l, s);
      r := Match(s, p);
      if r == Null {
        capture[l] := Capture(capture[l].init, CAP_UNFINISHED);
        assert Caps() == caps0;
      }
    }

    /** match_capture */
    method MatchCapture(s: nat, digit: Byte) returns (r: Answer)
      requires Valid() && s <= |src|
      ensures if !ValidBack(Caps(), digit) then r == Raise(InvalidCaptureIndex)
              else if Repeats(src, Caps()[digit - 49], s) then r == Found(s + Caps()[digit - 49].len) else r == Null
      ensures r.Found? ==> r.e <= |src|
    {
      var l := digit - 49;
      if l < 0 || l >= level || capture[l].len == CAP_UNFINISHED {
        return Raise(InvalidCaptureIndex);
      }
      var len, from := capture[l].len, capture[l].init;
      if len >= 0 && |src| - s >= len && from + len <= |src| && src[from..from + len] == src[s..s + len] {
        r := Found(s + len);
      } else {
        r := Null;
      }
    }

    /** The items that start with an escape and are not a character class: %b, %f and %1 to %9.  Either the
        answer is known, or the match goes on at `s` with the pattern at `p`. */
    method MatchEscape(s0: nat, p0: nat) returns (done: bool, r: Answer, s: nat, p: nat)
      requires Valid() && p0 < |pat| && s0 <= |src| && pat[p0] == L_ESC
      requires At(pat, p0 + 1) == 'b' as int || At(pat, p0 + 1) == 'f' as int || IsDigit(At(pat, p0 + 1))
      ensures done ==> Answers(Ways(src, pat, p0, Caps(), s0), Caps(), r, Caps())
      ensures !done ==> p0 < p <= |pat| && s <= |src| && Ways(src, pat, p, Caps(), s) == Ways(src, pat, p0, Caps(), s0)
    {
      hide Ways, ClassEnd, Balanced, Repeats, BracketMatch;
      WaysOfEscape(src, pat, p0, Caps(), s0);
      s, p, r, done := s0, p0, Null, true;
      if At(pat, p0 + 1) == 'b' as int {
        if At(pat, p0 + 2) == 0 || At(pat, p0 + 3) == 0 {
          return true, Raise(UnbalancedPattern), s, p;
        }
        var e := MatchBalance(s, At(pat, p0 + 2), At(pat, p0 + 3));
        if e == -1 {
          return true, Null, s, p;
        }
        s, p, done := e, p0 + 4, false;
      } else if At(pat, p0 + 1) == 'f' as int {
        p := p0 + 2;
        if At(pat, p) != '[' as int {
          return true, Raise(MissingFrontierClass), s, p;
        }
        var ep := FindClassEnd(pat, p);
        if ep.Failure? {
          return true, Raise(ep.error), s, p;
        }
        var before := MatchBracketClass(pat, p, ep.value - 1, if s == 0 then 0 else At(src, s - 1));
        var here := MatchBracketClass(pat, p, ep.value - 1, At(src, s));
        if before || !here {
          return true, Null, s, p;
        }
        p, done := ep.value, false;
      } else {
        r := MatchCapture(s, At(pat, p0 + 1));
        if r.Found? {
          s, p, done := r.e, p0 + 2, false;
        }
      }
    }

    /** A single-character class with its repetition. */
    method MatchOne(s0: nat, p0: nat) returns (done: bool, r: Answer, s: nat, p: nat)
      requires Valid() && p0 < |pat| && s0 <= |src| && PlainItem(pat, p0)
      modifies this`level, capture
      ensures Valid()
      ensures done ==> Answers(Ways(src, pat, p0, old(Caps()), s0), old(Caps()), r, Caps())
      ensures !done ==> p0 < p <= |pat| && s <= |src| && Caps() == old(Caps()) &&
                        Ways(src, pat, p, Caps(), s) == Ways(src, pat, p0, old(Caps()), s0)
      decreases |pat| - p0, 0
    {
      hide Ways, PlainItem, ClassEnd, OneAt, Most, Fewest, MaxRun, Parse;
      WaysOfOne(src, pat, p0, Caps(), s0);
      s, p, r, done := s0, p0, Null, true;
      var end := FindClassEnd(pat, p);
      if end.Failure? {
        return true, Raise(end.error), s, p;
      }
      var ep := end.value;
      var m := OneMore(s, p, ep);
      var c := At(pat, ep);
      if c == '?' as int {
        if m {
          r := Match(s + 1, ep + 1);
          if r != Null {
            return;
          }
        }
        p, done := ep + 1, false;
      } else if c == '*' as int {
        r := MaxExpand(s, p, ep);
      } else if c == '+' as int {
        if m { r := MaxExpand(s + 1, p, ep); }
      } else if c == '-' as int {
        r := MinExpand(s, p, ep);
      } else if m {
        s, p, done := s + 1, ep, false;
      }
    }

    /** match: the first way to match, in order of preference, with its captures; on failure all captures are
        as they were. */
    method Match(s0: nat, p0: nat) returns (r: Answer)
      requires Valid() && p0 <= |pat| && s0 <= |src|
      modifies this`level, capture
      ensures Valid() && Answers(Ways(src, pat, p0, old(Caps()), s0), old(Caps()), r, Caps())
      decreases |pat| - p0, 1
    {
      var s: nat, p: nat := s0, p0;
      ghost var caps0 := Caps();
      while true
        invariant Valid() && Caps() == caps0 && p0 <= p <= |pat| && s <= |src|
        invariant Ways(src, pat, p, caps0, s) == Ways(src, pat, p0, caps0, s0)
        decreases |pat| - p
      {
        ParseOk(pat, p);
        var c := At(pat, p);
        if c == '(' as int {
          if At(pat, p + 1) == ')' as int {
            r := StartCapture(s, p + 2, CAP_POSITION);
          } else {
            r := StartCapture(s, p + 1, CAP_UNFINISHED);
          }
          return;
        } else if c == ')' as int {
          r := EndCapture(s, p + 1);
          return;
        } else if c == 0 {
          return Found(s);
        } else if c == '$' as int && At(pat, p + 1) == 0 {
          EndWays(src, pat, p, caps0, s);
          return if s == |src| then Found(s) else Null;
        }
        var done;
        if c == L_ESC && (At(pat, p + 1) == 'b' as int || At(pat, p + 1) == 'f' as int || IsDigit(At(pat, p + 1))) {
          done, r, s, p := MatchEscape(s, p);
        } else {
          done, r, s, p := MatchOne(s, p);
        }
        if done {
          return;
        }
      }
    }
  }

  /** What the default case of match handles. */
  predicate PlainItem(pat: Bytes, p: nat) {
    var c := At(pat, p);
    && c != 0 && c != '(' as int && c != ')' as int && !(c == '$' as int && At(pat, p + 1) == 0)
    && !(c == L_ESC && (At(pat, p + 1) == 'b' as int || At(pat, p + 1) == 'f' as int || IsDigit(At(pat, p + 1))))
  }

  /** The ways of a single-character class with its repetition. */
  ghost function OneWays(src: Bytes, pat: Bytes, p: nat, caps: Captures, s: nat): seq<Outcome>
    requires p < |pat|
  {
    match ClassEnd(pat, p)
    case Failure(e) => [Err(e)]
    case Success(ep) =>
      var c := At(pat, ep);
      if c == '?' as int then
        (if OneAt(src, pat, p, ep, s) then Ways(src, pat, ep + 1, caps, s + 1) else []) + Ways(src, pat, ep + 1, caps, s)
      else if c == '*' as int then
        ParseOk(pat, ep + 1);
        Most(src, pat, Parse(pat, ep + 1), caps, s, MaxRun(src, pat, p, ep, s))
      else if c == '+' as int then
        ParseOk(pat, ep + 1);
        if OneAt(src, pat, p, ep, s) then Most(src, pat, Parse(pat, ep + 1), caps, s + 1, MaxRun(src, pat, p, ep, s + 1)) else []
      else if c == '-' as int then
        ParseOk(pat, ep + 1);
        Fewest(src, pat, Parse(pat, ep + 1), caps, s, MaxRun(src, pat, p, ep, s))
      else if OneAt(src, pat, p, ep, s) then Ways(src, pat, ep, caps, s + 1) else []
  }

  lemma WaysOfOne(src: Bytes, pat: Bytes, p: nat, caps: Captures, s: nat)
    requires p < |pat| && PlainItem(pat, p)
    ensures Ways(src, pat, p, caps, s) == OneWays(src, pat, p, caps, s)
  {
    hide ClassEnd, OneAt, MaxRun, Most, Fewest, ItemsOk;
    ParseOk(pat, p);
    var (item, next) := ParseOne(pat, p);
    var items := Parse(pat, p);
    if item.Malformed? {
      assert items == [item];
    } else {
      ParseOk(pat, next);
      assert items == [item] + Parse(pat, next) && items[1..] == Parse(pat, next);
    }
  }

  // What a repetition prefers, read off the pattern itself

  /** n repetitions of the class from p to ep are possible at s, and the rest behind the suffix has a way then. */
  ghost predicate Tries(src: Bytes, pat: Bytes, p: nat, ep: nat, caps: Captures, s: nat, n: nat)
    requires 0 < ep < |pat|
  {
    (forall k :: s <= k < s + n ==> OneAt(src, pat, p, ep, k)) && Ways(src, pat, ep + 1, caps, s + n) != []
  }

  /** A single-character class with one of the suffixes ? * + -. */
  predicate Suffixed(pat: Bytes, p: nat, ep: nat, suffix: char) {
    p < ep < |pat| && PlainItem(pat, p) && ClassEnd(pat, p) == Success(ep) && suffix in "?*+-" && pat[ep] == suffix as int
  }

  lemma TriesAre(src: Bytes, pat: Bytes, p: nat, ep: nat, caps: Captures, s: nat, n: nat)
    requires p < ep < |pat|
    ensures ItemsOk(Parse(pat, ep + 1))
    ensures Tries(src, pat, p, ep, caps, s, n) <==>
              n <= MaxRun(src, pat, p, ep, s) && After(src, pat, Parse(pat, ep + 1), caps, s, n) != []
    ensures After(src, pat, Parse(pat, ep + 1), caps, s, n) == Ways(src, pat, ep + 1, caps, s + n)
  {
    hide Parse, All, MaxRun, OneAt;
    ParseOk(pat, ep + 1);
    RunRepeated(src, pat, p, ep, s, n);
  }

  /** `*` takes the most repetitions after which the rest has a way. */
  lemma StarTakesMost(src: Bytes, pat: Bytes, p: nat, ep: nat, caps: Captures, s: nat, n: nat)
    requires Suffixed(pat, p, ep, '*')
    requires Tries(src, pat, p, ep, caps, s, n) && forall m: nat :: m > n ==> !Tries(src, pat, p, ep, caps, s, m)
    ensures var ways := Ways(src, pat, p, caps, s); ways != [] && ways[0] == Ways(src, pat, ep + 1, caps, s + n)[0]
  {
    hide Ways, Parse, OneAt, MaxRun, After, Tries, Most, ClassEnd;
    var rest, run := Parse(pat, ep + 1), MaxRun(src, pat, p, ep, s);
    WaysOfOne(src, pat, p, caps, s);
    ParseOk(pat, ep + 1);
    forall k: nat | n <= k <= run ensures k > n ==> After(src, pat, rest, caps, s, k) == [] {
      TriesAre(src, pat, p, ep, caps, s, k);
    }
    TriesAre(src, pat, p, ep, caps, s, n);
    Greedy(src, pat, rest, caps, s, run, n);
  }

  /** `-` takes the fewest. */
  lemma MinusTakesFewest(src: Bytes, pat: Bytes, p: nat, ep: nat, caps: Captures, s: nat, n: nat)
    requires Suffixed(pat, p, ep, '-')
    requires Tries(src, pat, p, ep, caps, s, n) && forall m: nat :: m < n ==> !Tries(src, pat, p, ep, caps, s, m)
    ensures var ways := Ways(src, pat, p, caps, s); ways != [] && ways[0] == Ways(src, pat, ep + 1, caps, s + n)[0]
  {
    hide Ways, Parse, OneAt, MaxRun, After, Tries, Fewest, ClassEnd;
    var rest, run := Parse(pat, ep + 1), MaxRun(src, pat, p, ep, s);
    WaysOfOne(src, pat, p, caps, s);
    TriesAre(src, pat, p, ep, caps, s, n);
    forall k: nat | k < n ensures After(src, pat, rest, caps, s, k) == [] {
      TriesAre(src, pat, p, ep, caps, s, k);
    }
    Frugal(src, pat, rest, caps, s, run, n);
  }

  /** `+` takes the most, and at least one. */
  lemma PlusTakesMost(src: Bytes, pat: Bytes, p: nat, ep: nat, caps: Captures, s: nat, n: nat)
    requires Suffixed(pat, p, ep, '+')
    requires n >= 1 && Tries(src, pat, p, ep, caps, s, n) && forall m: nat :: m > n ==> !Tries(src, pat, p, ep, caps, s, m)
    ensures var ways := Ways(src, pat, p, caps, s); ways != [] && ways[0] == Ways(src, pat, ep + 1, caps, s + n)[0]
  {
    hide Ways, Parse, OneAt, MaxRun, After, Tries, Most, ClassEnd;
    var rest, s1 := Parse(pat, ep + 1), s + 1;
    var run := MaxRun(src, pat, p, ep, s1);
    WaysOfOne(src, pat, p, caps, s);
    RunOfOne(src, pat, p, ep, s);
    TriesAre(src, pat, p, ep, caps, s, n);
    AfterNext(src, pat, rest, caps, s, n - 1);
    forall k: nat | n - 1 < k <= run ensures After(src, pat, rest, caps, s1, k) == [] {
      TriesAre(src, pat, p, ep, caps, s, k + 1);
      AfterNext(src, pat, rest, caps, s, k);
    }
    Greedy(src, pat, rest, caps, s1, run, n - 1);
  }

  /** `?` takes one, and none if the rest has no way then. */
  lemma OneBeforeNone(src: Bytes, pat: Bytes, p: nat, ep: nat, caps: Captures, s: nat)
    requires Suffixed(pat, p, ep, '?')
    ensures Ways(src, pat, p, caps, s) ==
              (if OneAt(src, pat, p, ep, s) then Ways(src, pat, ep + 1, caps, s + 1) else []) + Ways(src, pat, ep + 1, caps, s)
  {
    hide Ways, OneAt, ClassEnd;
    WaysOfOne(src, pat, p, caps, s);
  }

  /** Without a suffix it is exactly one. */
  lemma ExactlyOne(src: Bytes, pat: Bytes, p: nat, ep: nat, caps: Captures, s: nat)
    requires p < ep <= |pat| && PlainItem(pat, p) && ClassEnd(pat, p) == Success(ep)
    requires ep == |pat| || (pat[ep] != '?' as int && pat[ep] != '*' as int && pat[ep] != '+' as int && pat[ep] != '-' as int)
    ensures Ways(src, pat, p, caps, s) == if OneAt(src, pat, p, ep, s) then Ways(src, pat, ep, caps, s + 1) else []
  {
    hide Ways, OneAt, ClassEnd;
    WaysOfOne(src, pat, p, caps, s);
  }

  /** A repetition fails exactly if no number of repetitions, at least one for +, leaves the rest a way. */
  lemma NoRepetition(src: Bytes, pat: Bytes, p: nat, ep: nat, caps: Captures, s: nat, suffix: char)
    requires Suffixed(pat, p, ep, suffix) && suffix != '?'
    ensures Ways(src, pat, p, caps, s) == [] <==> forall n: nat :: (suffix == '+' ==> n >= 1) ==> !Tries(src, pat, p, ep, caps, s, n)
  {
    hide Ways, Parse, OneAt, MaxRun, After, Tries, Most, Fewest, ClassEnd;
    ParseOk(pat, ep + 1);
    var rest, run := Parse(pat, ep + 1), MaxRun(src, pat, p, ep, s);
    WaysOfOne(src, pat, p, caps, s);
    RunOfOne(src, pat, p, ep, s);
    forall n: nat ensures Tries(src, pat, p, ep, caps, s, n) <==> n <= run && After(src, pat, rest, caps, s, n) != [] {
      TriesAre(src, pat, p, ep, caps, s, n);
    }
    if suffix == '-' {
      FewestNone(src, pat, rest, caps, s, run);
    } else if suffix == '*' {
      MostNone(src, pat, rest, caps, s, run);
    } else if run > 0 {
      MostNone(src, pat, rest, caps, s + 1, run - 1);
      NoneShifted(src, pat, rest, caps, s, s + 1, run - 1);
    }
  }

  lemma {:induction false} MostNone(src: Bytes, pat: Bytes, rest: seq<Item>, caps: Captures, s: nat, n: nat)
    requires ItemsOk(rest)
    ensures Most(src, pat, rest, caps, s, n) == [] <==> forall k: nat :: k <= n ==> After(src, pat, rest, caps, s, k) == []
    decreases n
  {
    hide Most, After;
    MostIs(src, pat, rest, caps, s, n);
    if n > 0 { MostNone(src, pat, rest, caps, s, n - 1); }
  }

  lemma {:induction false} FewestNone(src: Bytes, pat: Bytes, rest: seq<Item>, caps: Captures, s: nat, n: nat)
    requires ItemsOk(rest)
    ensures Fewest(src, pat, rest, caps, s, n) == [] <==> forall k: nat :: k <= n ==> After(src, pat, rest, caps, s, k) == []
    decreases n
  {
    hide Fewest, After;
    FewestIs(src, pat, rest, caps, s, n);
    if n > 0 {
      FewestNone(src, pat, rest, caps, s + 1, n - 1);
      NoneShifted(src, pat, rest, caps, s, s + 1, n - 1);
    }
  }

  lemma NoneShifted(src: Bytes, pat: Bytes, rest: seq<Item>, caps: Captures, s: nat, s1: nat, n: nat)
    requires ItemsOk(rest) && s1 == s + 1
    ensures (forall k: nat :: k <= n ==> After(src, pat, rest, caps, s1, k) == []) <==>
            (forall k: nat :: 1 <= k <= n + 1 ==> After(src, pat, rest, caps, s, k) == [])
  {
    hide After;
    if forall k: nat :: k <= n ==> After(src, pat, rest, caps, s1, k) == [] {
      forall k: nat | 1 <= k <= n + 1 ensures After(src, pat, rest, caps, s, k) == [] {
        AfterNext(src, pat, rest, caps, s, k - 1);
        assert After(src, pat, rest, caps, s1, k - 1) == [];
      }
    }
    if forall k: nat :: 1 <= k <= n + 1 ==> After(src, pat, rest, caps, s, k) == [] {
      forall k: nat | k <= n ensures After(src, pat, rest, caps, s1, k) == [] {
        AfterNext(src, pat, rest, caps, s, k);
        assert After(src, pat, rest, caps, s, k + 1) == [];
      }
    }
  }

  /** An opening parenthesis opens a capture, or notes the position if the closing one follows. */
  lemma WaysOfOpen(src: Bytes, pat: Bytes, p: nat, caps: Captures, s: nat)
    requires p < |pat| && pat[p] == '(' as int
    ensures Ways(src, pat, p, caps, s) ==
              if |caps| >= 32 then [Err(TooManyCaptures)]
              else if p + 1 < |pat| && pat[p + 1] == ')' as int then Ways(src, pat, p + 2, caps + [Capture(s, -2)], s)
              else Ways(src, pat, p + 1, caps + [Capture(s, -1)], s)
  {
    hide ParseOne, Most, Fewest, MaxRun, OneAt, ItemsOk;
    WaysOfNext(src, pat, p, caps, s);
  }

  /** A closing parenthesis ends the innermost capture that is open. */
  lemma WaysOfClose(src: Bytes, pat: Bytes, p: nat, caps: Captures, s: nat)
    requires p < |pat| && pat[p] == ')' as int
    ensures (forall l: nat :: l < |caps| ==> caps[l].len != -1) ==> Ways(src, pat, p, caps, s) == [Err(InvalidPatternCapture)]
    ensures forall l: nat :: l < |caps| && caps[l].len == -1 && (forall k :: l < k < |caps| ==> caps[k].len != -1) ==>
              Ways(src, pat, p, caps, s) == Ways(src, pat, p + 1, caps[l := Capture(caps[l].init, s - caps[l].init)], s)
  {
    hide Ways, ToClose;
    WaysOfClosing(src, pat, p, caps, s);
  }

  lemma WaysOfClosing(src: Bytes, pat: Bytes, p: nat, caps: Captures, s: nat)
    requires p < |pat| && pat[p] == ')' as int
    ensures Ways(src, pat, p, caps, s) ==
              if ToClose(caps) == -1 then [Err(InvalidPatternCapture)] else Ways(src, pat, p + 1, Closed(caps, ToClose(caps), s), s)
  {
    hide ParseOne, Most, Fewest, MaxRun, OneAt, ItemsOk, ToClose, Closed, Parse;
    WaysOfNext(src, pat, p, caps, s);
  }

  /** The pattern ends, or $ ends it: the match ends here, with $ only at the end of the subject. */
  lemma WaysOfEnd(src: Bytes, pat: Bytes, p: nat, caps: Captures, s: nat)
    requires p <= |pat|
    ensures p == |pat| || pat[p] == 0 ==> Ways(src, pat, p, caps, s) == [Hit(s, caps)]
    ensures p < |pat| && pat[p] == '$' as int && (p + 1 == |pat| || pat[p + 1] == 0) ==>
              Ways(src, pat, p, caps, s) == if s == |src| then [Hit(s, caps)] else []
  {
    hide ParseOne, Most, Fewest, MaxRun, OneAt, ItemsOk;
    if p < |pat| && pat[p] == '$' as int && (p + 1 == |pat| || pat[p + 1] == 0) {
      EndWays(src, pat, p, caps, s);
    } else {
      ParseOk(pat, p);
    }
  }

  lemma WaysOfNext(src: Bytes, pat: Bytes, p: nat, caps: Captures, s: nat)
    requires p < |pat| && (pat[p] == '(' as int || pat[p] == ')' as int)
    ensures var next := if pat[p] == '(' as int && At(pat, p + 1) == ')' as int then p + 2 else p + 1;
            && next <= |pat| && ItemsOk(Parse(pat, next)) && ItemsOk(Parse(pat, p)) && Parse(pat, p) != []
            && Parse(pat, p)[1..] == Parse(pat, next)
            && Parse(pat, p)[0] == if pat[p] == ')' as int then Close else if next == p + 2 then Position else Open
  {
    hide ItemsOk;
    var next := if pat[p] == '(' as int && At(pat, p + 1) == ')' as int then p + 2 else p + 1;
    ParseOk(pat, p);
    ParseOk(pat, next);
    assert Parse(pat, p)[1..] == Parse(pat, next);
  }

  /** The ways of %b, %f and %1 to %9. */
  ghost function EscapeWays(src: Bytes, pat: Bytes, p: nat, caps: Captures, s: nat): seq<Outcome>
    requires p < |pat|
  {
    if At(pat, p + 1) == 'b' as int then
      if At(pat, p + 2) == 0 || At(pat, p + 3) == 0 then [Err(UnbalancedPattern)]
      else if Balanced(src, At(pat, p + 2), At(pat, p + 3), s) == -1 then []
      else Ways(src, pat, p + 4, caps, Balanced(src, At(pat, p + 2), At(pat, p + 3), s))
    else if At(pat, p + 1) == 'f' as int then
      if At(pat, p + 2) != '[' as int then [Err(MissingFrontierClass)]
      else
        match ClassEnd(pat, p + 2)
        case Failure(e) => [Err(e)]
        case Success(ep) => if FrontierAt(src, pat, p + 2, ep, s) then Ways(src, pat, ep, caps, s) else []
    else if p + 2 > |pat| || !ValidBack(caps, At(pat, p + 1)) then [Err(InvalidCaptureIndex)]
    else if Repeats(src, caps[At(pat, p + 1) - 49], s) then Ways(src, pat, p + 2, caps, s + caps[At(pat, p + 1) - 49].len)
    else []
  }

  lemma WaysOfEscape(src: Bytes, pat: Bytes, p: nat, caps: Captures, s: nat)
    requires p < |pat| && pat[p] == L_ESC
    requires At(pat, p + 1) == 'b' as int || At(pat, p + 1) == 'f' as int || IsDigit(At(pat, p + 1))
    ensures Ways(src, pat, p, caps, s) == EscapeWays(src, pat, p, caps, s)
  {
    hide ClassEnd, OneAt, MaxRun, Most, Fewest, ItemsOk, Balanced, FrontierAt, ValidBack, Repeats;
    ParseOk(pat, p);
    var items := Parse(pat, p);
    if |items| > 0 && !items[0].Malformed? {
      var next := match items[0] case Balance(_, _) => p + 4 case Frontier(_, ep) => ep case _ => p + 2;
      ParseOk(pat, next);
      assert items == [items[0]] + Parse(pat, next) && items[1..] == Parse(pat, next);
    }
  }

  /** The anchor at the end of a pattern. */
  lemma EndWays(src: Bytes, pat: Bytes, p: nat, caps: Captures, s: nat)
    requires p < |pat| && pat[p] == '$' as int && At(pat, p + 1) == 0
    ensures Ways(src, pat, p, caps, s) == if s == |src| then [Hit(s, caps)] else []
  {
    ParseOk(pat, p);
    var items := Parse(pat, p);
    assert items == [AtEnd] && items[1..] == [];
    assert All(src, pat, [], caps, s) == [Hit(s, caps)];
  }

  /** The matcher in terms of what it means to match: a match it finds is one, and NULL means there is none. */
  lemma MatchMeaning(src: Bytes, pat: Bytes, p: nat, caps0: Captures, s: nat, r: Answer, caps: Captures)
    requires p <= |pat| && s <= |src| && Answers(Ways(src, pat, p, caps0, s), caps0, r, caps)
    ensures ItemsOk(Parse(pat, p))
    ensures r.Found? ==> Can(src, pat, Parse(pat, p), caps0, s, r.e, caps) && s <= r.e <= |src|
    ensures r == Null ==> caps == caps0 && forall e, c :: !Can(src, pat, Parse(pat, p), caps0, s, e, c)
  {
    ParseOk(pat, p);
    var items := Parse(pat, p);
    HitBounds(src, pat, p, caps0, s);
    if r.Found? {
      assert Hit(r.e, caps) in All(src, pat, items, caps0, s);
      AllComplete(src, pat, items, caps0, s, r.e, caps);
    }
    if r == Null {
      forall e, c ensures !Can(src, pat, items, caps0, s, e, c) {
        AllComplete(src, pat, items, caps0, s, e, c);
      }
    }
  }

  // ---------------------------------------------------------------------------
  // string.find, string.match and string.gsub
  // ---------------------------------------------------------------------------

  /** The search of str_find_aux: the leftmost position at which the pattern matches. */
  method StrFind(src: Bytes, pat: Bytes, init: nat) returns (start: int, r: Answer, caps: Captures)
    requires init <= |src|
    ensures var anchor := At(pat, 0) == '^' as int;
            var p := if anchor then 1 else 0;
            && p <= |pat| && start == FirstPosition(src, pat, p, init, anchor)
            && (start == -1 ==> r == Null)
            && (start >= 0 ==> r != Null && (r.Found? ==> start <= r.e <= |src|) && Answers(Ways(src, pat, p, [], start), [], r, caps))
  {
    var anchor := At(pat, 0) == '^' as int;
    var p := if anchor then 1 else 0;
    var ms := new MatchState(src, pat);
    var s1 := init;
    while true
      invariant init <= s1 <= |src| && ms.Valid() && fresh(ms) && fresh(ms.capture)
      invariant FirstPosition(src, pat, p, s1, anchor) == FirstPosition(src, pat, p, init, anchor)
      decreases |src| - s1
    {
      ms.level := 0;
      assert ms.Caps() == [];
      HitBounds(src, pat, p, [], s1);
      var res := ms.Match(s1, p);
      if res != Null {
        return s1, res, if res.Found? then ms.capture[..ms.level] else [];
      }
      if !(s1 < |src| && !anchor) {
        return -1, Null, [];
      }
      s1 := s1 + 1;
    }
  }

  lemma PrependNothing(r: Result<(Bytes, nat)>)
    ensures Prepend([], 0, r) == r
  {
    if r.Success? {
      assert [] + r.value.0 == r.value.0;
    }
  }

  lemma PrependTwice(b0: Bytes, n0: nat, b1: Bytes, n1: nat, r: Result<(Bytes, nat)>)
    ensures Prepend(b0, n0, Prepend(b1, n1, r)) == Prepend(b0 + b1, n0 + n1, r)
  {
    if r.Success? {
      assert b0 + (b1 + r.value.0) == b0 + b1 + r.value.0;
    }
  }

  lemma PrependLast(b: Bytes, n: nat, t: Bytes, k: nat)
    ensures Prepend(b, n, Success((t, k))) == Success((b + t, n + k))
  {
  }

  /** What is left to do after a match that ended at e. */
  ghost function Onward(src: Bytes, pat: Bytes, p: nat, rep: Replacement, e: nat, left: nat, anchor: bool): Result<(Bytes, nat)>
    requires p <= |pat| && e <= |src|
  {
    if anchor then Success((src[e..], 0)) else Substituted(src, pat, p, rep, e, left, anchor)
  }

  /** One round of the loop in str_gsub. */
  lemma SubstitutedStep(src: Bytes, pat: Bytes, p: nat, rep: Replacement, s: nat, left: nat, anchor: bool, b0: Bytes, n0: nat, a: Answer, text: Bytes)
    requires p <= |pat| && s <= |src| && left > 0 && !a.Raise?
    requires var ways := Ways(src, pat, p, [], s);
             if ways == [] then a == Null && text == []
             else ways[0].Hit? && a == Found(ways[0].e) && s <= a.e <= |src| && text == ReplacedBy(src, rep, s, a.e, ways[0].caps)
    ensures var k := if a.Found? then 1 else 0;
            var all := Prepend(b0, n0, Substituted(src, pat, p, rep, s, left, anchor));
            if a.Found? && a.e > s then all == Prepend(b0 + text, n0 + k, Onward(src, pat, p, rep, a.e, left - k, anchor))
            else if s < |src| then all == Prepend(b0 + text + [src[s]], n0 + k, Onward(src, pat, p, rep, s + 1, left - k, anchor))
            else all == Success((b0 + text, n0 + k))
  {
    hide Ways, Prepend, ReplacedBy;
    var k := if a.Found? then 1 else 0;
    if a.Found? && a.e > s {
      PrependTwice(b0, n0, text, k, Onward(src, pat, p, rep, a.e, left - k, anchor));
    } else if s < |src| {
      PrependTwice(b0, n0, text + [src[s]], k, Onward(src, pat, p, rep, s + 1, left - k, anchor));
      assert b0 + (text + [src[s]]) == b0 + text + [src[s]];
    } else {
      PrependLast(b0, n0, text, k);
    }
  }

  /** The ends of the loop in str_gsub. */
  lemma SubstitutedEnds(src: Bytes, pat: Bytes, p: nat, rep: Replacement, s: nat, left: nat, anchor: bool, b0: Bytes, n0: nat)
    requires p <= |pat| && s <= |src|
    ensures left == 0 ==> Prepend(b0, n0, Substituted(src, pat, p, rep, s, left, anchor)) == Success((b0 + src[s..], n0))
    ensures var ways := Ways(src, pat, p, [], s);
            left > 0 && ways != [] && ways[0].Err? ==> Prepend(b0, n0, Substituted(src, pat, p, rep, s, left, anchor)) == Failure(ways[0].error)
  {
    hide Ways;
  }

  /** One match of str_gsub and its replacement (add_value). */
  method MatchAndReplace(ms: MatchState, p: nat, s: nat, rep: Replacement) returns (a: Answer, text: Bytes)
    requires ms.Valid() && p <= |ms.pat| && s <= |ms.src|
    modifies ms`level, ms.capture
    ensures ms.Valid()
    ensures var ways := Ways(ms.src, ms.pat, p, [], s);
            if ways == [] then a == Null && text == []
            else match ways[0]
                 case Err(x) => a == Raise(x)
                 case Hit(e, caps) =>
                   a == Found(e) && s <= e <= |ms.src| &&
                   text == ReplacedBy(ms.src, rep, s, e, caps)
  {
    ms.level := 0;
    assert ms.Caps() == [];
    HitBounds(ms.src, ms.pat, p, [], s);
    a := ms.Match(s, p);
    text := [];
    if a.Found? {
      text := ReplacedBy(ms.src, rep, s, a.e, ms.capture[..ms.level]);
    }
  }

  /** str_gsub */
  method StrGSub(src: Bytes, pat: Bytes, rep: Replacement, maxS: int) returns (r: Result<(Bytes, nat)>)
    ensures var anchor := At(pat, 0) == '^' as int;
            var p := if anchor then 1 else 0;
            p <= |pat| && r == Substituted(src, pat, p, rep, 0, if maxS > 0 then maxS else 0, anchor)
  {
    hide Ways, Substituted, Prepend, ReplacedBy;
    var anchor := At(pat, 0) == '^' as int;
    var p := if anchor then 1 else 0;
    var ms := new MatchState(src, pat);
    var b: Bytes, n: nat, s: nat := [], 0, 0;
    ghost var limit: nat := if maxS > 0 then maxS else 0;
    ghost var all := Substituted(src, pat, p, rep, 0, limit, anchor);
    PrependNothing(all);
    while n < maxS
      invariant n <= limit && s <= |src| && ms.Valid() && fresh(ms) && fresh(ms.capture)
      invariant all == Prepend(b, n, Substituted(src, pat, p, rep, s, limit - n, anchor))
      decreases |src| - s, limit - n
    {
      SubstitutedEnds(src, pat, p, rep, s, limit - n, anchor, b, n);
      var e, text := MatchAndReplace(ms, p, s, rep);
      if e.Raise? {
        return Failure(e.error);
      }
      SubstitutedStep(src, pat, p, rep, s, limit - n, anchor, b, n, e, text);
      if e.Found? {
        n := n + 1;
      }
      b := b + text;
      if e.Found? && e.e > s {
        s := e.e;
      } else if s < |src| {
        b := b + [src[s]];
        s := s + 1;
      } else {
        assert b + src[s..] == b;
        return Success((b, n));
      }
      if anchor {
        PrependLast(b, n, src[s..], 0);
        return Success((b + src[s..], n));
      }
    }
    SubstitutedEnds(src, pat, p, rep, s, limit - n, anchor, b, n);
    r := Success((b + src[s..], n));
  }

  // ---------------------------------------------------------------------------
  // Plain search
  // ---------------------------------------------------------------------------

  predicate OccursAt(s1: Bytes, s2: Bytes, i: nat) {
    i + |s2| <= |s1| && s1[i..i + |s2|] == s2
  }

  /** memchr */
  method MemChr(s: Bytes, from: nat, c: Byte, len: nat) returns (r: int)
    requires from + len <= |s|
    ensures r == -1 ==> forall k :: from <= k < from + len ==> s[k] != c
    ensures r != -1 ==> from <= r < from + len && s[r] == c && forall k :: from <= k < r ==> s[k] != c
  {
    r := from;
    while r < from + len
      invariant from <= r <= from + len && forall k :: from <= k < r ==> s[k] != c
    {
      if s[r] == c {
        return;
      }
      r := r + 1;
    }
    r := -1;
  }

  /** lmemfind: the first occurrence of s2 in s1, or -1. */
  method LMemFind(s1: Bytes, s2: Bytes) returns (r: int)
    ensures r == -1 ==> forall k: nat :: !OccursAt(s1, s2, k)
    ensures r != -1 ==> 0 <= r && OccursAt(s1, s2, r) && forall k: nat :: k < r ==> !OccursAt(s1, s2, k)
  {
    if |s2| == 0 {
      return 0;
    } else if |s2| > |s1| {
      return -1;
    }
    var l2 := |s2| - 1;
    var l1 := |s1| - l2;
    var at := 0;
    while l1 > 0
      invariant 0 <= at && 0 <= l1 && at + l1 == |s1| - l2
      invariant forall k: nat :: k < at ==> !OccursAt(s1, s2, k)
      decreases l1
    {
      var init := MemChr(s1, at, s2[0], l1);
      forall k: nat | at <= k < (if init == -1 then at + l1 else init) ensures !OccursAt(s1, s2, k) {
        if k + |s2| <= |s1| { assert s1[k..k + |s2|][0] == s1[k]; }
      }
      if init == -1 {
        break;
      }
      init := init + 1;
      if s1[init..init + l2] == s2[1..] {
        assert s1[init - 1..init - 1 + |s2|] == [s1[init - 1]] + s1[init..init + l2];
        return init - 1;
      }
      assert !OccursAt(s1, s2, init - 1) by {
        assert s1[init - 1..init - 1 + |s2|][1..] == s1[init..init + l2];
      }
      l1 := l1 - (init - at);
      at := init;
    }
    forall k: nat ensures !OccursAt(s1, s2, k) {
      assert k + |s2| <= |s1| ==> k < |s1| - l2;
    }
    r := -1;
  }

  // ---------------------------------------------------------------------------
  // string.find and string.match: where to start, and whether to look for the bytes themselves
  // ---------------------------------------------------------------------------

  /** "^$*+?.([%-" */
  const SPECIALS: seq<Byte> := [94, 36, 42, 43, 63, 46, 40, 91, 37, 45]

  /** strlen */
  function CLen(pat: Bytes): (n: nat)
    ensures n <= |pat| && At(pat, n) == 0 && forall k :: 0 <= k < n ==> pat[k] != 0
  {
    if pat == [] || pat[0] == 0 then 0
    else
      var n := CLen(pat[1..]);
      assert forall k :: 1 <= k <= n ==> pat[k] == pat[1..][k - 1];
      n + 1
  }

  /** strpbrk(p, SPECIALS) == NULL: it looks no further than the first zero. */
  predicate NoSpecials(pat: Bytes) {
    forall k :: 0 <= k < CLen(pat) ==> pat[k] !in SPECIALS
  }

  /** posrelat, as str_find_aux uses it: from 1, or from the end if negative; never outside the subject. */
  function InitOf(init: int, len: nat): (i: nat)
    ensures i <= len
    ensures 1 <= init <= len + 1 ==> i == init - 1
    ensures -(len as int) <= init < 0 ==> i == len + init
  {
    var pos := if init < 0 then init + len + 1 else init;
    var i := (if pos >= 0 then pos else 0) - 1;
    if i < 0 then 0 else if i > len then len else i
  }

  /** The first place, not before i, where the bytes of s2 occur. */
  ghost predicate FirstOccurrence(s1: Bytes, s2: Bytes, i: nat, start: int) {
    if start == -1 then forall k: nat :: i <= k ==> !OccursAt(s1, s2, k)
    else i <= start && OccursAt(s1, s2, start) && forall k: nat :: i <= k < start ==> !OccursAt(s1, s2, k)
  }

  lemma OccursBehind(s1: Bytes, s2: Bytes, i: nat, k: nat)
    requires i <= |s1| && i <= k
    ensures OccursAt(s1, s2, k) <==> OccursAt(s1[i..], s2, k - i)
  {
    if k + |s2| <= |s1| {
      assert s1[k..k + |s2|] == s1[i..][k - i..k - i + |s2|];
    }
  }

  /** lmemfind on the rest of the subject. */
  method FindPlain(src: Bytes, pat: Bytes, i: nat) returns (start: int)
    requires i <= |src|
    ensures FirstOccurrence(src, pat, i, start)
  {
    var r := LMemFind(src[i..], pat);
    start := if r == -1 then -1 else i + r;
    forall k: nat | i <= k ensures OccursAt(src, pat, k) <==> OccursAt(src[i..], pat, k - i) {
      OccursBehind(src, pat, i, k);
    }
  }

  /** str_find_aux: a plain search if asked for, or if the pattern has no special characters; else the search
      for the leftmost match.  Captures are left for push_captures. */
  method StrFindAux(src: Bytes, pat: Bytes, init: int, plain: bool, find: bool) returns (start: int, r: Answer, caps: Captures)
    ensures find && (plain || NoSpecials(pat)) ==>
              && FirstOccurrence(src, pat, InitOf(init, |src|), start) && caps == []
              && r == if start == -1 then Null else Found(start + |pat|)
    ensures !(find && (plain || NoSpecials(pat))) ==>
              var anchor := At(pat, 0) == '^' as int;
              var p := if anchor then 1 else 0;
              && p <= |pat| && start == FirstPosition(src, pat, p, InitOf(init, |src|), anchor)
              && (start == -1 ==> r == Null)
              && (start >= 0 ==> r != Null && (r.Found? ==> start <= r.e <= |src|) && Answers(Ways(src, pat, p, [], start), [], r, caps))
  {
    hide Ways, OccursAt;
    var i := InitOf(init, |src|);
    if find && (plain || NoSpecials(pat)) {
      start := FindPlain(src, pat, i);
      r := if start == -1 then Null else Found(start + |pat|);
      caps := [];
    } else {
      start, r, caps := StrFind(src, pat, i);
    }
  }

  /** Where a pattern without special characters stops being plain: its first zero or closing parenthesis. */
  function Stop(pat: Bytes): (z: nat)
    ensures z <= |pat| && (z < |pat| ==> pat[z] == 0 || pat[z] == ')' as int)
    ensures forall k :: 0 <= k < z ==> pat[k] != 0 && pat[k] != ')' as int
  {
    if pat == [] || pat[0] == 0 || pat[0] == ')' as int then 0
    else
      var z := Stop(pat[1..]);
      assert forall k :: 1 <= k <= z ==> pat[k] == pat[1..][k - 1];
      z + 1
  }

  lemma StopInside(pat: Bytes)
    ensures Stop(pat) <= CLen(pat)
  {
    assert At(pat, CLen(pat)) == 0;
  }

  lemma PlainEnd(src: Bytes, pat: Bytes, z: nat, s: nat)
    requires z <= |pat| && (At(pat, z) == 0 || At(pat, z) == ')' as int)
    ensures Ways(src, pat, z, [], s) == if At(pat, z) == 0 then [Hit(s, [])] else [Err(InvalidPatternCapture)]
  {
    ParseOk(pat, z);
    var items := Parse(pat, z);
    if At(pat, z) != 0 { assert items[0] == Item.Close; }
  }

  lemma PlainItems(pat: Bytes, p: nat)
    requires p < CLen(pat) && NoSpecials(pat) && pat[p] != ')' as int
    ensures ParseOne(pat, p) == (One(p, p + 1, Once), p + 1) && Parse(pat, p) == [One(p, p + 1, Once)] + Parse(pat, p + 1)
    ensures pat[p] != '.' as int && pat[p] != '[' as int && pat[p] != L_ESC
  {
    assert pat[p] !in SPECIALS && (p + 1 < CLen(pat) ==> pat[p + 1] !in SPECIALS);
    assert forall c :: c in SPECIALS <==> c == 94 || c == 36 || c == 42 || c == 43 || c == 63 || c == 46 || c == 40 || c == 91 || c == 37 || c == 45;
    assert RepOf(At(pat, p + 1)) == Once by { assert p + 1 == CLen(pat) ==> At(pat, p + 1) == 0; }
  }

  lemma PlainOne(src: Bytes, pat: Bytes, p: nat, s: nat)
    requires p < CLen(pat) && NoSpecials(pat) && pat[p] != ')' as int
    ensures Ways(src, pat, p, [], s) == if s < |src| && src[s] == pat[p] then Ways(src, pat, p + 1, [], s + 1) else []
  {
    hide Parse, ParseOne, NoSpecials, CLen;
    PlainItems(pat, p);
    ParseOk(pat, p);
    ParseOk(pat, p + 1);
    assert Parse(pat, p)[1..] == Parse(pat, p + 1);
  }

  /** A pattern without special characters matches the bytes up to where it stops: at a zero it ends, at a closing
      parenthesis it is malformed. */
  lemma {:induction false} PlainWays(src: Bytes, pat: Bytes, p: nat, s: nat)
    requires NoSpecials(pat) && p <= Stop(pat) && s <= |src|
    ensures var z := Stop(pat);
            Ways(src, pat, p, [], s) ==
              if !OccursAt(src, pat[p..z], s) then [] else if At(pat, z) == 0 then [Hit(s + z - p, [])] else [Err(InvalidPatternCapture)]
    decreases Stop(pat) - p
  {
    hide Ways, NoSpecials;
    var z := Stop(pat);
    StopInside(pat);
    if p == z {
      PlainEnd(src, pat, z, s);
    } else {
      PlainOne(src, pat, p, s);
      var item := pat[p..z];
      assert item[0] == pat[p] && item[1..] == pat[p + 1..z];
      if s < |src| {
        PlainWays(src, pat, p + 1, s + 1);
        if s + |item| <= |src| { assert src[s..s + |item|] == [src[s]] + src[s + 1..s + |item|]; }
      }
    }
  }

  ghost predicate SameAnswer(src: Bytes, pat: Bytes, s: nat) {
    s <= |src| ==> Ways(src, pat, 0, [], s) == if OccursAt(src, pat, s) then [Hit(s + |pat|, [])] else []
  }

  /** The shortcut of str_find_aux gives what matching would give, on every subject, exactly if the pattern has
      no zero and no closing parenthesis; neither is among the special characters it looks for. */
  lemma ShortcutMeaning(pat: Bytes)
    requires NoSpecials(pat)
    ensures (forall src, s :: SameAnswer(src, pat, s)) <==> forall k :: 0 <= k < |pat| ==> pat[k] != 0 && pat[k] != ')' as int
  {
    hide Ways, NoSpecials;
    var z := Stop(pat);
    if z == |pat| {
      assert pat[0..z] == pat;
      forall src, s: nat ensures SameAnswer(src, pat, s) {
        if s <= |src| { PlainWays(src, pat, 0, s); }
      }
    } else {
      PlainWays(pat, pat, 0, 0);
      assert OccursAt(pat, pat[0..z], 0) && OccursAt(pat, pat, 0);
      assert !SameAnswer(pat, pat, 0);
    }
  }

  /** So string.find finds, with the shortcut, what the matcher would find without it. */
  lemma ShortcutSound(src: Bytes, pat: Bytes, i: nat, start: int)
    requires NoSpecials(pat) && (forall k :: 0 <= k < |pat| ==> pat[k] != 0 && pat[k] != ')' as int)
    requires i <= |src| && FirstOccurrence(src, pat, i, start)
    ensures start == FirstPosition(src, pat, 0, i, false)
    ensures start >= 0 ==> Ways(src, pat, 0, [], start) == [Hit(start + |pat|, [])]
    decreases |src| - i
  {
    hide Ways, NoSpecials;
    ShortcutMeaning(pat);
    assert SameAnswer(src, pat, i);
    if !OccursAt(src, pat, i) && i < |src| {
      ShortcutSound(src, pat, i + 1, start);
    }
  }
}
