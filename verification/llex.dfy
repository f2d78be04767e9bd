/** Quoted strings: the lexer's read_string (llex.c) and the `%q` format that writes what it reads
    (lstrlib.c). */
module LuaQuote {

  newtype byte = x: int | 0 <= x <= 255

  const EOZ: int := -1
  const LUA_INT_MAX: int := 2147483645

  const QUOTE: byte := 34
  const BACKSLASH: byte := 92
  const NEWLINE: byte := 10
  const RETURN: byte := 13

  predicate IsDigit(c: int) {
    48 <= c <= 57
  }

  predicate IsNewline(c: int) {
    c == 10 || c == 13
  }

  // ---- `%q`

  /** How one byte is written between the quotes. */
  function QuotedByte(c: byte): seq<byte> {
    if c == QUOTE || c == BACKSLASH || c == NEWLINE then [BACKSLASH, c]
    else if c == RETURN then [BACKSLASH, 114]
    else if c == 0 then [BACKSLASH, 48, 48, 48]
    else [c]
  }

  function QuotedBody(s: seq<byte>): seq<byte> {
    if s == [] then [] else QuotedByte(s[0]) + QuotedBody(s[1..])
  }

  function Quoted(s: seq<byte>): seq<byte> {
    [QUOTE] + QuotedBody(s) + [QUOTE]
  }

  lemma {:induction false} QuotedBodyAppend(s: seq<byte>, c: byte)
    ensures QuotedBody(s + [c]) == QuotedBody(s) + QuotedByte(c)
  {
    if s == [] {
      assert QuotedByte(c) + [] == QuotedByte(c);
    } else {
      assert (s + [c])[1..] == s[1..] + [c];
      QuotedBodyAppend(s[1..], c);
    }
  }

  lemma QuotedNothing(s: seq<byte>)
    ensures QuotedBody(s[..0]) == []
  {
  }

  /** addquoted */
  method AddQuoted(b: seq<byte>, s: seq<byte>) returns (r: seq<byte>)
    ensures r == b + Quoted(s)
  {
    hide QuotedBody;
    QuotedNothing(s);
    r := b + [QUOTE];
    var k := 0;
    while k < |s|
      invariant k <= |s| && r == b + [QUOTE] + QuotedBody(s[..k])
    {
      QuotedBodyAppend(s[..k], s[k]);
      assert s[..k + 1] == s[..k] + [s[k]];
      var c := s[k];
      ghost var r0 := r;
      if c == QUOTE || c == BACKSLASH || c == NEWLINE {
        r := r + [BACKSLASH];
        r := r + [c];
      } else if c == RETURN {
        r := r + [BACKSLASH, 114];
      } else if c == 0 {
        r := r + [BACKSLASH, 48, 48, 48];
      } else {
        r := r + [c];
      }
      assert r == r0 + QuotedByte(c);
      k := k + 1;
    }
    assert s[..k] == s;
    r := r + [QUOTE];
  }

  // ---- What a string token is, section 2.1 of the Lua 5.1 Reference Manual

  datatype Scanned = Str(contents: seq<byte>, rest: seq<byte>, line: int) | Unfinished | TooLarge | TooManyLines

  function Prepend(s: seq<byte>, r: Scanned): Scanned {
    if r.Str? then r.(contents := s + r.contents) else r
  }

  /** The one-letter escapes: \a \b \f \n \r \t \v. */
  function Escape(c: byte): int {
    match c as int
    case 97 => 7 case 98 => 8 case 102 => 12 case 110 => 10 case 114 => 13 case 116 => 9 case 118 => 11
    case _ => -1
  }

  /** Up to `most` leading digits. */
  function Digits(ts: seq<byte>, most: nat): (n: nat)
    ensures n <= most && n <= |ts|
    ensures forall i :: 0 <= i < n ==> IsDigit(ts[i] as int)
    ensures n < most && n < |ts| ==> !IsDigit(ts[n] as int)
  {
    if most > 0 && ts != [] && IsDigit(ts[0] as int) then 1 + Digits(ts[1..], most - 1) else 0
  }

  function Decimal(ts: seq<byte>): nat
    requires forall i :: 0 <= i < |ts| ==> IsDigit(ts[i] as int)
  {
    if ts == [] then 0 else
    assert IsDigit(ts[|ts| - 1] as int);
    10 * Decimal(ts[..|ts| - 1]) + (ts[|ts| - 1] as int - 48)
  }

  /** The bytes a line break takes: one, or two different newline bytes in a row. */
  function BreakLength(ts: seq<byte>): (n: nat)
    requires |ts| > 0
    ensures 1 <= n <= |ts|
  {
    if |ts| > 1 && IsNewline(ts[1] as int) && ts[1] != ts[0] then 2 else 1
  }

  datatype Escaped = Means(c: byte, length: nat, lines: nat) | Wrong(e: Scanned)

  /** The escape sequence at the head of ts: the byte it stands for, how long it is, and the line
      breaks in it. */
  function EscapeOf(ts: seq<byte>, line: int): (e: Escaped)
    requires |ts| > 0
    ensures e.Means? ==> 0 < e.length <= |ts|
  {
    if |ts| == 1 then Wrong(Unfinished)
    else if Escape(ts[1]) >= 0 then Means(Escape(ts[1]) as byte, 2, 0)
    else if IsNewline(ts[1] as int) then
      if line + 1 >= LUA_INT_MAX then Wrong(TooManyLines) else Means(NEWLINE, 1 + BreakLength(ts[1..]), 1)
    else if !IsDigit(ts[1] as int) then Means(ts[1], 2, 0)
    else
      var n := Digits(ts[1..], 3);
      if Decimal(ts[1..][..n]) > 255 then Wrong(TooLarge)
      else Means(Decimal(ts[1..][..n]) as byte, 1 + n, 0)
  }

  /** What stands between the opening delimiter, already read, and the closing one. */
  function Scan(ts: seq<byte>, del: byte, line: int): Scanned
    decreases |ts|
  {
    if ts == [] then Unfinished
    else if ts[0] == del then Str([], ts[1..], line)
    else if IsNewline(ts[0] as int) then Unfinished
    else if ts[0] != BACKSLASH then Prepend([ts[0]], Scan(ts[1..], del, line))
    else
      match EscapeOf(ts, line)
      case Wrong(e) => e
      case Means(c, n, k) => Prepend([c], Scan(ts[n..], del, line + k))
  }

  lemma PrependNothing(r: Scanned)
    ensures Prepend([], r) == r
  {
    if r.Str? {
      assert [] + r.contents == r.contents;
    }
  }

  lemma PrependTwice(s: seq<byte>, t: seq<byte>, r: Scanned)
    ensures Prepend(s, Prepend(t, r)) == Prepend(s + t, r)
  {
    if r.Str? {
      assert s + (t + r.contents) == (s + t) + r.contents;
    }
  }

  lemma PrependFails(s: seq<byte>, r: Scanned)
    ensures !r.Str? ==> Prepend(s, r) == r
    ensures r.Str? && r.contents == [] ==> Prepend(s, r) == r.(contents := s)
  {
    assert s + [] == s;
  }

  lemma ScanStops(ts: seq<byte>, del: byte, line: int)
    ensures ts == [] ==> Scan(ts, del, line) == Unfinished
    ensures ts != [] && ts[0] == del ==> Scan(ts, del, line) == Str([], ts[1..], line)
    ensures ts != [] && ts[0] != del && IsNewline(ts[0] as int) ==> Scan(ts, del, line) == Unfinished
  {
  }

  lemma ScanGoesOn(ts: seq<byte>, del: byte, line: int)
    requires ts != [] && ts[0] != del && !IsNewline(ts[0] as int)
    ensures ts[0] != BACKSLASH ==> Scan(ts, del, line) == Prepend([ts[0]], Scan(ts[1..], del, line))
    ensures ts[0] == BACKSLASH ==>
              var r := EscapeOf(ts, line);
              Scan(ts, del, line) == if r.Wrong? then r.e else Prepend([r.c], Scan(ts[r.length..], del, line + r.lines))
    ensures EscapeOf(ts, line).Wrong? ==> !EscapeOf(ts, line).e.Str? && (|ts| == 1 ==> EscapeOf(ts, line).e == Unfinished)
  {
  }

  /** A run of digits that cannot be longer is the one found. */
  lemma {:induction false} DigitsAre(ts: seq<byte>, most: nat, n: nat)
    requires n <= most && n <= |ts|
    requires forall i :: 0 <= i < n ==> IsDigit(ts[i] as int)
    requires n < most && n < |ts| ==> !IsDigit(ts[n] as int)
    ensures Digits(ts, most) == n
  {
    if n > 0 {
      DigitsAre(ts[1..], most - 1, n - 1);
    }
  }

  // ---- The escapes one by one

  /** \a \b \t \n \v \f \r are the bytes 7 to 13 in this order; any other byte that is no digit and no line break
      stands for itself. */
  lemma EscapeLetters(c: byte, rest: seq<byte>, line: int)
    ensures var letters := "abtnvfr";
            var e := EscapeOf([BACKSLASH, c] + rest, line);
            && (forall k :: 0 <= k < 7 && letters[k] as int == c as int ==> e == Means((7 + k) as byte, 2, 0))
            && ((forall k :: 0 <= k < 7 ==> letters[k] as int != c as int) && !(48 <= c <= 57) && c != 10 && c != 13 ==> e == Means(c, 2, 0))
  {
    hide Digits, Decimal;
    var letters := "abtnvfr";
    assert letters[0] == 'a' && letters[1] == 'b' && letters[2] == 't' && letters[3] == 'n' && letters[4] == 'v' && letters[5] == 'f' && letters[6] == 'r';
  }

  /** One to three digits, as many as there are, give a byte by its number, and an error above 255. */
  lemma EscapeDigits(ds: seq<byte>, rest: seq<byte>, line: int)
    requires 1 <= |ds| <= 3 && forall i :: 0 <= i < |ds| ==> 48 <= ds[i] <= 57
    requires |ds| < 3 && rest != [] ==> !(48 <= rest[0] <= 57)
    ensures var value := if |ds| == 1 then ds[0] as int - 48
                         else if |ds| == 2 then 10 * (ds[0] as int - 48) + ds[1] as int - 48
                         else 100 * (ds[0] as int - 48) + 10 * (ds[1] as int - 48) + ds[2] as int - 48;
            EscapeOf([BACKSLASH] + ds + rest, line) == if value > 255 then Wrong(TooLarge) else Means(value as byte, 1 + |ds|, 0)
  {
    hide Digits, Decimal;
    var ts := [BACKSLASH] + ds + rest;
    assert ts[1..] == ds + rest && ts[1..][..|ds|] == ds;
    DigitsAre(ts[1..], 3, |ds|);
    DecimalOf(ds);
  }

  lemma DecimalOf(ds: seq<byte>)
    requires 1 <= |ds| <= 3 && forall i :: 0 <= i < |ds| ==> IsDigit(ds[i] as int)
    ensures Decimal(ds) == if |ds| == 1 then ds[0] as int - 48
                           else if |ds| == 2 then 10 * (ds[0] as int - 48) + ds[1] as int - 48
                           else 100 * (ds[0] as int - 48) + 10 * (ds[1] as int - 48) + ds[2] as int - 48
  {
    if |ds| == 1 {
      assert ds[..0] == [];
    } else {
      DecimalOf(ds[..|ds| - 1]);
    }
  }

  /** A line break behind the backslash, one byte or two different ones, is one newline. */
  lemma EscapeBreak(c: byte, d: byte, rest: seq<byte>, line: int)
    requires c == 10 || c == 13
    ensures var e := EscapeOf([BACKSLASH, c, d] + rest, line);
            e == if line + 1 >= LUA_INT_MAX then Wrong(TooManyLines)
                 else Means(10, if (d == 10 || d == 13) && d != c then 3 else 2, 1)
  {
    hide Digits, Decimal;
    var ts := [BACKSLASH, c, d] + rest;
    assert ts[1..][0] == c && ts[1..][1] == d;
  }

  // ---- The round trip

  function Newlines(s: seq<byte>): nat {
    if s == [] then 0 else (if s[0] == NEWLINE then 1 else 0) + Newlines(s[1..])
  }

  lemma ScanQuotedByte(c: byte, ts: seq<byte>, line: int)
    requires |ts| > 0 && !IsNewline(ts[0] as int)
    ensures Scan(QuotedByte(c) + ts, QUOTE, line) ==
            if c != NEWLINE then Prepend([c], Scan(ts, QUOTE, line))
            else if line + 1 >= LUA_INT_MAX then TooManyLines
            else Prepend([NEWLINE], Scan(ts, QUOTE, line + 1))
  {
    if c == 0 {
      ScanQuotedZero(ts, line);
    } else if |QuotedByte(c)| == 2 {
      ScanEscaped(c, ts, line);
    } else {
      assert (QuotedByte(c) + ts)[1..] == ts;
    }
  }

  lemma ScanEscaped(c: byte, ts: seq<byte>, line: int)
    requires |ts| > 0 && !IsNewline(ts[0] as int) && |QuotedByte(c)| == 2
    ensures Scan(QuotedByte(c) + ts, QUOTE, line) ==
            if c != NEWLINE then Prepend([c], Scan(ts, QUOTE, line))
            else if line + 1 >= LUA_INT_MAX then TooManyLines
            else Prepend([NEWLINE], Scan(ts, QUOTE, line + 1))
  {
    hide Digits, Decimal;
    var all := QuotedByte(c) + ts;
    assert all[2..] == ts && (c == NEWLINE ==> all[1..] == [NEWLINE] + ts);
  }

  lemma ScanQuotedZero(ts: seq<byte>, line: int)
    ensures Scan(QuotedByte(0) + ts, QUOTE, line) == Prepend([0], Scan(ts, QUOTE, line))
  {
    hide Digits, Decimal;
    var all := QuotedByte(0) + ts;
    assert all[1..] == [48, 48, 48] + ts && all[1..][..3] == [48, 48, 48] && all[4..] == ts;
    ThreeZeros(all[1..], ts);
  }

  lemma ThreeZeros(s: seq<byte>, ts: seq<byte>)
    requires s == [48, 48, 48] + ts
    ensures Digits(s, 3) == 3 && Decimal([48, 48, 48]) == 0
  {
    assert s[1..] == [48, 48] + ts && s[1..][1..] == [48] + ts;
    assert [48 as byte, 48, 48][..2] == [48, 48] && [48 as byte, 48][..1] == [48];
  }

  lemma ScanClosed(rest: seq<byte>, line: int)
    ensures Scan([QUOTE] + rest, QUOTE, line) == Str([], rest, line)
  {
    assert ([QUOTE] + rest)[1..] == rest;
  }

  lemma QuotedStart(c: byte)
    ensures QuotedByte(c) != [] && !IsNewline(QuotedByte(c)[0] as int)
  {
  }

  lemma {:induction false} QuoteThenScan(s: seq<byte>, rest: seq<byte>, line: int)
    ensures Scan(QuotedBody(s) + ([QUOTE] + rest), QUOTE, line) ==
            if Newlines(s) == 0 || line + Newlines(s) < LUA_INT_MAX then Str(s, rest, line + Newlines(s))
            else TooManyLines
  {
    hide Scan, QuotedByte;
    var behind := [QUOTE] + rest;
    if s == [] {
      assert QuotedBody(s) + behind == behind;
      ScanClosed(rest, line);
    } else {
      var ts := QuotedBody(s[1..]) + behind;
      assert QuotedBody(s) + behind == QuotedByte(s[0]) + ts;
      if |s| > 1 {
        QuotedStart(s[1]);
        assert ts[0] == QuotedByte(s[1])[0];
      }
      ScanQuotedByte(s[0], ts, line);
      QuoteThenScan(s[1..], rest, if s[0] == NEWLINE then line + 1 else line);
      assert [s[0]] + s[1..] == s;
    }
  }

  /** Reading what `%q` wrote gives the string back, whatever bytes it holds and whatever follows it,
      exactly if the line counter does not run over. */
  lemma QuoteThenRead(s: seq<byte>, rest: seq<byte>, line: int)
    ensures Quoted(s)[0] == QUOTE
    ensures var token := Scan((Quoted(s) + rest)[1..], QUOTE, line);
            && (token.Str? <==> Newlines(s) == 0 || line + Newlines(s) < LUA_INT_MAX)
            && (token.Str? ==> token == Str(s, rest, line + Newlines(s)))
            && (!token.Str? ==> token == TooManyLines)
  {
    assert (Quoted(s) + rest)[1..] == QuotedBody(s) + ([QUOTE] + rest);
    QuoteThenScan(s, rest, line);
  }

  // ---- read_string itself

  class LexState {
    var current: int      // the byte being looked at, or EOZ
    var input: seq<byte>  // what lies behind it
    var buff: seq<byte>
    var linenumber: int

    /** Everything from the current byte on. */
    function Rest(): seq<byte>
      requires EOZ <= current <= 255
      reads this
    {
      if current == EOZ then [] else [current as byte] + input
    }

    ghost predicate Valid()
      reads this
    {
      EOZ <= current <= 255 && (current == EOZ ==> input == [])
    }

    constructor (bytes: seq<byte>, line: int)
      ensures Valid() && Rest() == bytes && buff == [] && linenumber == line
    {
      current := if bytes == [] then EOZ else bytes[0] as int;
      input := if bytes == [] then [] else bytes[1..];
      buff, linenumber := [], line;
    }

    method Next()
      requires Valid()
      modifies `current, `input
      ensures Valid() && Rest() == if old(Rest()) == [] then [] else old(Rest())[1..]
    {
      if input == [] {
        current := EOZ;
      } else {
        current := input[0] as int;
        input := input[1..];
      }
    }

    method Save(c: byte)
      modifies `buff
      ensures buff == old(buff) + [c]
    {
      buff := buff + [c];
    }

    method SaveAndNext()
      requires Valid() && current != EOZ
      modifies this
      ensures Valid() && Rest() == old(Rest())[1..] && linenumber == old(linenumber)
      ensures buff == old(buff) + [old(current) as byte]
    {
      Save(current as byte);
      Next();
    }

    /** inclinenumber: passes one line break; false when there are too many lines. */
    method IncLineNumber() returns (ok: bool)
      requires Valid() && IsNewline(current)
      modifies `current, `input, `linenumber
      ensures Valid() && Rest() == old(Rest())[BreakLength(old(Rest()))..]
      ensures linenumber == old(linenumber) + 1 && ok == (linenumber < LUA_INT_MAX)
    {
      var was := current;
      Next();
      if IsNewline(current) && current != was {
        Next();
      }
      linenumber := linenumber + 1;
      ok := linenumber < LUA_INT_MAX;
    }

    /** A decimal escape: one to three digits. */
    method ReadDecimal() returns (c: int)
      requires Valid() && IsDigit(current)
      modifies `current, `input
      ensures Valid()
      ensures var n := Digits(old(Rest()), 3);
              Rest() == old(Rest())[n..] && c == Decimal(old(Rest())[..n])
    {
      ghost var was := Rest();
      var i := 0;
      c := 0;
      while true
        invariant Valid() && i < 3 && i < |was| && IsDigit(current) && Rest() == was[i..]
        invariant forall k :: 0 <= k < i ==> IsDigit(was[k] as int)
        invariant c == Decimal(was[..i])
        decreases 3 - i
      {
        assert was[..i + 1][..i] == was[..i];
        assert was[i] as int == current;
        c := 10 * c + (current - 48);
        Next();
        i := i + 1;
        if i >= 3 || !IsDigit(current) {
          break;
        }
      }
      DigitsAre(was, 3, i);
    }

    /** The backslash branch of read_string; false when it raises an error. */
    method ReadEscape() returns (ok: bool, e: Scanned)
      requires Valid() && current == BACKSLASH as int
      modifies this
      ensures Valid() && var was, r := old(Rest()), EscapeOf(old(Rest()), old(linenumber));
              if r.Means?
              then ok && buff == old(buff) + [r.c] && Rest() == was[r.length..] && linenumber == old(linenumber) + r.lines
              else if |was| == 1 then ok && buff == old(buff) && Rest() == []
              else !ok && e == r.e
    {
      e := Unfinished;
      ok := true;
      ghost var was := Rest();
      Next();
      if current == EOZ {
        return;
      }
      assert was[1..][0] == was[1] && current == was[1] as int;
      assert was[1..][1..] == was[2..];
      var c := Escape(current as byte);
      if c >= 0 {
        Save(c as byte);
        Next();
      } else if IsNewline(current) {
        Save(NEWLINE);
        ok := IncLineNumber();
        e := TooManyLines;
      } else if !IsDigit(current) {
        SaveAndNext();
      } else {
        var d := ReadDecimal();
        if d > 255 {
          return false, TooLarge;
        }
        Save(d as byte);
      }
    }

    /** The rest of the token is behind what has been read. */
    ghost predicate Ahead(del: byte, goal: Scanned)
      reads this
    {
      Valid() && buff != [] && goal == Prepend(buff[1..], Scan(Rest(), del, linenumber))
    }

    /** One round of read_string at an ordinary byte. */
    method ReadPlain(del: byte, ghost goal: Scanned)
      requires Valid() && Ahead(del, goal) && current != EOZ && !IsNewline(current) && current != del as int && current != BACKSLASH as int
      modifies this
      ensures Valid() && Ahead(del, goal) && |Rest()| < |old(Rest())|
    {
      hide Scan, Prepend;
      ghost var ts, done := Rest(), buff[1..];
      ScanGoesOn(ts, del, linenumber);
      SaveAndNext();
      PrependTwice(done, [ts[0]], Scan(Rest(), del, linenumber));
      assert buff[1..] == done + [ts[0]];
    }

    /** One round of read_string at a backslash. */
    method ReadEscaped(del: byte, ghost goal: Scanned) returns (ok: bool, token: Scanned)
      requires Valid() && Ahead(del, goal) && current == BACKSLASH as int && del != BACKSLASH
      modifies this
      ensures if ok then Valid() && Ahead(del, goal) && |Rest()| < |old(Rest())| else token == goal && !token.Str?
    {
      hide Scan, Prepend, EscapeOf;
      ghost var ts, done, at := Rest(), buff[1..], linenumber;
      PrependFails(done, Scan(ts, del, at));
      ScanGoesOn(ts, del, at);
      ok, token := ReadEscape();
      if !ok {
        return;
      }
      ghost var r := EscapeOf(ts, at);
      if r.Means? {
        PrependTwice(done, [r.c], Scan(Rest(), del, linenumber));
        assert buff[1..] == done + [r.c];
      } else {
        ScanStops([], del, linenumber);
      }
    }

    /** read_string: reads up to the closing delimiter; the token is the buffer without its two
        delimiters. */
    method ReadString(del: byte) returns (token: Scanned)
      requires Valid() && current == del as int && buff == []
      requires del == QUOTE || del == 39
      modifies this
      ensures token == Scan(old(Rest())[1..], del, old(linenumber))
      ensures token.Str? ==> Valid() && Rest() == token.rest && linenumber == token.line
    {
      hide Scan, Prepend;
      ghost var goal := Scan(Rest()[1..], del, linenumber);
      SaveAndNext();
      PrependNothing(goal);
      assert buff[1..] == [];
      while current != del as int
        invariant Valid() && Ahead(del, goal)
        decreases |Rest()|
      {
        if current == EOZ || IsNewline(current) {
          PrependFails(buff[1..], Scan(Rest(), del, linenumber));
          ScanStops(Rest(), del, linenumber);
          return Unfinished;
        }
        if current != BACKSLASH as int {
          ReadPlain(del, goal);
        } else {
          var ok;
          ok, token := ReadEscaped(del, goal);
          if !ok {
            return;
          }
        }
      }
      ScanStops(Rest(), del, linenumber);
      PrependFails(buff[1..], Scan(Rest(), del, linenumber));
      assert Rest()[1..] == input;
      SaveAndNext();
      token := Str(buff[1..|buff| - 1], Rest(), linenumber);
    }
  }
}
