/** Precedence climbing: subexpr and its priority table (lparser.c). */
module LuaPrecedence {

  datatype BinOpr = ADD | SUB | MUL | DIV | MOD | POW | CONCAT | NE | EQ | LT | LE | GT | GE | AND | OR
  datatype UnOpr = MINUS | NOT | LEN

  /** Tokens as subexpr sees them.  `Atom` is any simple expression other than a parenthesized one;
      `Symbol(SUB)` doubles as the unary minus. */
  datatype Token = Atom(n: nat) | Symbol(op: BinOpr) | NotSign | LenSign | Open | Close | Other(n: nat)

  datatype Tree =
    | Leaf(n: nat)
    | Group(e: Tree)
    | Unary(uop: UnOpr, e: Tree)
    | Binary(op: BinOpr, l: Tree, r: Tree)

  datatype Option<T> = None | Some(value: T)

  function GetUnOpr(t: Token): Option<UnOpr> {
    match t
    case NotSign => Some(NOT)
    case LenSign => Some(LEN)
    case Symbol(SUB) => Some(MINUS)
    case _ => None
  }

  function UnToken(op: UnOpr): Token {
    match op case NOT => NotSign case LEN => LenSign case MINUS => Symbol(SUB)
  }

  const UNARY_PRIORITY: nat := 8
  const MAXCCALLS: nat := 200

  function Left(op: BinOpr): nat {
    match op
    case ADD => 6 case SUB => 6 case MUL => 7 case DIV => 7 case MOD => 7
    case POW => 10 case CONCAT => 5
    case NE => 3 case EQ => 3 case LT => 3 case LE => 3 case GT => 3 case GE => 3
    case AND => 2 case OR => 1
  }

  function Right(op: BinOpr): nat {
    match op case POW => 9 case CONCAT => 4 case _ => Left(op)
  }

  // ---- What a parse tree has to look like

  function Tokens(e: Tree): (ts: seq<Token>)
    ensures |ts| > 0
  {
    match e
    case Leaf(n) => [Atom(n)]
    case Group(e) => [Open] + Tokens(e) + [Close]
    case Unary(uop, e) => [UnToken(uop)] + Tokens(e)
    case Binary(op, l, r) => Tokens(l) + [Symbol(op)] + Tokens(r)
  }

  /** The operators e is built from at its left edge, outside any bracket, all bind tighter than
      `limit` on their left. */
  predicate Above(e: Tree, limit: nat) {
    e.Binary? ==> Left(e.op) > limit && Above(e.l, limit)
  }

  /** An operator with left priority p put behind e does not reach into e: along the right edge of e
      every operator holds on to its operand at least as tightly. */
  predicate Holds(e: Tree, p: nat) {
    match e
    case Unary(_, e) => p <= UNARY_PRIORITY && Holds(e, p)
    case Binary(op, _, r) => p <= Right(op) && Holds(r, p)
    case _ => true
  }

  /** The tree respects the priority table, section 2.5.6 of the Lua 5.1 Reference Manual. */
  predicate Respects(e: Tree) {
    match e
    case Leaf(_) => true
    case Group(e) => Respects(e)
    case Unary(_, e) => Respects(e) && Above(e, UNARY_PRIORITY)
    case Binary(op, l, r) => Respects(l) && Respects(r) && Holds(l, Left(op)) && Above(r, Right(op))
  }

  /** How deep calls of subexpr nest while reading e. */
  function Nest(e: Tree): (d: nat)
    ensures d >= 1
  {
    match e
    case Leaf(_) => 1
    case Group(e) => 1 + Nest(e)
    case Unary(_, e) => 1 + Nest(e)
    case Binary(_, l, r) => if Nest(l) > 1 + Nest(r) then Nest(l) else 1 + Nest(r)
  }

  /** The left priority of the binary operator at the head of the tokens; 0 when there is none. */
  function Next(ts: seq<Token>): nat {
    if |ts| > 0 && ts[0].Symbol? then Left(ts[0].op) else 0
  }

  // ---- subexpr as a function on the tokens still to come; `room` is how many levels may still nest

  datatype Parsed = Parsed(e: Tree, rest: seq<Token>) | SyntaxError | TooManyLevels

  function SubExprOf(ts: seq<Token>, limit: nat, room: nat): (p: Parsed)
    ensures p.Parsed? ==> |p.rest| < |ts|
    decreases |ts|, 2
  {
    if room == 0 then TooManyLevels else
    var first := OperandOf(ts, room - 1);
    if first.Parsed? then LoopOf(first.e, first.rest, limit, room - 1) else first
  }

  function OperandOf(ts: seq<Token>, room: nat): (p: Parsed)
    ensures p.Parsed? ==> |p.rest| < |ts|
    decreases |ts|, 1
  {
    if ts == [] then SyntaxError
    else if GetUnOpr(ts[0]).Some? then
      var p := SubExprOf(ts[1..], UNARY_PRIORITY, room);
      if p.Parsed? then Parsed(Unary(GetUnOpr(ts[0]).value, p.e), p.rest) else p
    else if ts[0].Atom? then Parsed(Leaf(ts[0].n), ts[1..])
    else if ts[0].Open? then
      var p := SubExprOf(ts[1..], 0, room);
      if !p.Parsed? then p
      else if p.rest != [] && p.rest[0].Close? then Parsed(Group(p.e), p.rest[1..])
      else SyntaxError
    else SyntaxError
  }

  function LoopOf(v: Tree, ts: seq<Token>, limit: nat, room: nat): (p: Parsed)
    ensures p.Parsed? ==> |p.rest| <= |ts|
    decreases |ts|, 3
  {
    if Next(ts) <= limit || Next(ts) == 0 then Parsed(v, ts)
    else
      var p := SubExprOf(ts[1..], Right(ts[0].op), room);
      if p.Parsed? then LoopOf(Binary(ts[0].op, v, p.e), p.rest, limit, room) else p
  }

  // ---- The trees found are the ones wanted, and the only ones

  /** What subexpr reads with a limit: a tree respecting the table, of operators above the limit, that
      the next token has no claim on. */
  ghost predicate Reads(ts: seq<Token>, limit: nat, e: Tree, rest: seq<Token>) {
    && ts == Tokens(e) + rest
    && Respects(e) && Above(e, limit) && Holds(e, Next(rest)) && Next(rest) <= limit
  }

  lemma {:induction false} SubExprSound(ts: seq<Token>, limit: nat, room: nat)
    requires SubExprOf(ts, limit, room).Parsed?
    ensures var p := SubExprOf(ts, limit, room);
            Reads(ts, limit, p.e, p.rest) && Nest(p.e) <= room
    decreases |ts|, 2
  {
    var first := OperandOf(ts, room - 1);
    OperandSound(ts, room - 1);
    LoopSound(first.e, first.rest, limit, room - 1);
    var p := SubExprOf(ts, limit, room);
    assert p == LoopOf(first.e, first.rest, limit, room - 1);
    assert ts == Tokens(first.e) + first.rest;
  }

  lemma {:induction false} OperandSound(ts: seq<Token>, room: nat)
    requires OperandOf(ts, room).Parsed?
    ensures var p := OperandOf(ts, room);
            && ts == Tokens(p.e) + p.rest && Respects(p.e) && !p.e.Binary?
            && Holds(p.e, Next(p.rest)) && Nest(p.e) <= 1 + room
    decreases |ts|, 1
  {
    hide SubExprOf, LoopOf, Above;
    if GetUnOpr(ts[0]).Some? {
      SubExprSound(ts[1..], UNARY_PRIORITY, room);
      assert UnToken(GetUnOpr(ts[0]).value) == ts[0];
      assert ts == [ts[0]] + ts[1..];
    } else if ts[0].Open? {
      SubExprSound(ts[1..], 0, room);
      var p := SubExprOf(ts[1..], 0, room);
      assert ts == [Open] + Tokens(p.e) + ([Close] + p.rest[1..]);
    }
  }

  lemma {:induction false} LoopSound(v: Tree, ts: seq<Token>, limit: nat, room: nat)
    requires LoopOf(v, ts, limit, room).Parsed?
    requires Respects(v) && Above(v, limit) && Holds(v, Next(ts)) && Nest(v) <= 1 + room
    ensures var p := LoopOf(v, ts, limit, room);
            && Tokens(v) + ts == Tokens(p.e) + p.rest && Respects(p.e) && Above(p.e, limit)
            && Holds(p.e, Next(p.rest)) && Next(p.rest) <= limit && Nest(p.e) <= 1 + room
    decreases |ts|, 3
  {
    if Next(ts) > limit {
      SubExprSound(ts[1..], Right(ts[0].op), room);
      var p := SubExprOf(ts[1..], Right(ts[0].op), room);
      var w := Binary(ts[0].op, v, p.e);
      assert Tokens(v) + ts == Tokens(w) + p.rest;
      LoopSound(w, p.rest, limit, room);
    }
  }

  /** Every tree that respects the table is found, if it does not nest too deeply: with tokens behind
      it that have no claim on it, reading them arrives at e and goes on from there. */
  lemma {:induction false} SubExprFinds(e: Tree, rest: seq<Token>, limit: nat, room: nat)
    requires Respects(e) && Above(e, limit) && Holds(e, Next(rest)) && Nest(e) <= room
    ensures SubExprOf(Tokens(e) + rest, limit, room) == LoopOf(e, rest, limit, room - 1)
    decreases e
  {
    hide SubExprOf, OperandOf;
    match e {
      case Leaf(n) =>
        LeafFound(n, rest, limit, room);
      case Group(b) =>
        AboveZero(b);
        HoldsNone(b);
        SubExprFinds(b, [Close] + rest, 0, room - 1);
        GroupFound(b, rest, limit, room);
      case Unary(uop, b) =>
        SubExprFinds(b, rest, UNARY_PRIORITY, room - 1);
        UnaryFound(uop, b, rest, limit, room);
      case Binary(op, l, r) =>
        var behind := [Symbol(op)] + (Tokens(r) + rest);
        assert Tokens(e) + rest == Tokens(l) + behind;
        SubExprFinds(l, behind, limit, room);
        SubExprFinds(r, rest, Right(op), room - 1);
        LoopTakes(op, l, r, rest, limit, room - 1);
    }
  }

  lemma LeafFound(n: nat, rest: seq<Token>, limit: nat, room: nat)
    requires room > 0
    ensures SubExprOf(Tokens(Leaf(n)) + rest, limit, room) == LoopOf(Leaf(n), rest, limit, room - 1)
  {
    hide LoopOf;
    assert (Tokens(Leaf(n)) + rest)[1..] == rest;
  }

  lemma GroupFound(b: Tree, rest: seq<Token>, limit: nat, room: nat)
    requires room > 0
    requires SubExprOf(Tokens(b) + ([Close] + rest), 0, room - 1) == Parsed(b, [Close] + rest)
    ensures SubExprOf(Tokens(Group(b)) + rest, limit, room) == LoopOf(Group(b), rest, limit, room - 1)
  {
    hide LoopOf;
    assert (Tokens(Group(b)) + rest)[1..] == Tokens(b) + ([Close] + rest);
    assert ([Close] + rest)[1..] == rest;
  }

  lemma UnaryFound(uop: UnOpr, b: Tree, rest: seq<Token>, limit: nat, room: nat)
    requires room > 0
    requires SubExprOf(Tokens(b) + rest, UNARY_PRIORITY, room - 1) == Parsed(b, rest)
    ensures SubExprOf(Tokens(Unary(uop, b)) + rest, limit, room) == LoopOf(Unary(uop, b), rest, limit, room - 1)
  {
    hide LoopOf;
    assert (Tokens(Unary(uop, b)) + rest)[1..] == Tokens(b) + rest;
    assert GetUnOpr(UnToken(uop)) == Some(uop);
  }

  lemma LoopTakes(op: BinOpr, l: Tree, r: Tree, rest: seq<Token>, limit: nat, room: nat)
    requires Left(op) > limit && Next(rest) <= Right(op) && room > 0
    requires SubExprOf(Tokens(r) + rest, Right(op), room) == LoopOf(r, rest, Right(op), room - 1)
    ensures LoopOf(l, [Symbol(op)] + (Tokens(r) + rest), limit, room)
            == LoopOf(Binary(op, l, r), rest, limit, room)
  {
    var ts := [Symbol(op)] + (Tokens(r) + rest);
    assert ts[1..] == Tokens(r) + rest;
    assert LoopOf(r, rest, Right(op), room - 1) == Parsed(r, rest);
  }

  lemma {:induction false} AboveZero(e: Tree)
    ensures Above(e, 0)
  {
    if e.Binary? {
      AboveZero(e.l);
    }
  }

  lemma {:induction false} HoldsNone(e: Tree)
    ensures Holds(e, 0)
  {
    match e {
      case Unary(_, b) => HoldsNone(b);
      case Binary(_, _, r) => HoldsNone(r);
      case _ =>
    }
  }

  /** subexpr succeeds with e exactly when e is a reading of the tokens that nests no deeper than there
      is room for. */
  lemma SubExprExactly(ts: seq<Token>, limit: nat, room: nat, e: Tree, rest: seq<Token>)
    ensures SubExprOf(ts, limit, room) == Parsed(e, rest)
            <==> Reads(ts, limit, e, rest) && Nest(e) <= room
  {
    if SubExprOf(ts, limit, room) == Parsed(e, rest) {
      SubExprSound(ts, limit, room);
    }
    if Reads(ts, limit, e, rest) && Nest(e) <= room {
      SubExprFinds(e, rest, limit, room);
    }
  }

  /** No two trees that respect the table read the same tokens. */
  lemma OneReading(ts: seq<Token>, limit: nat, e: Tree, rest: seq<Token>, f: Tree, more: seq<Token>)
    requires Reads(ts, limit, e, rest) && Reads(ts, limit, f, more)
    ensures e == f && rest == more
  {
    var room := if Nest(e) > Nest(f) then Nest(e) else Nest(f);
    SubExprExactly(ts, limit, room, e, rest);
    SubExprExactly(ts, limit, room, f, more);
  }

  /** The order of section 2.5.6, from the loosest level to the tightest; the unary operators make level 7. */
  function Level(op: BinOpr): nat {
    match op
    case OR => 1
    case AND => 2
    case LT | GT | LE | GE | NE | EQ => 3
    case CONCAT => 4
    case ADD | SUB => 5
    case MUL | DIV | MOD => 6
    case POW => 8
  }

  /** Of two operators side by side, does the first take the operand between them? */
  predicate FirstTakes(op: BinOpr, op': BinOpr) {
    Level(op) > Level(op') || (Level(op) == Level(op') && !op.POW? && !op.CONCAT?)
  }

  /** An operator stands inside another, without brackets, only if its level is tighter; on the same level `^` and
      `..` group to the right, all others to the left. */
  lemma TighterInside(op: BinOpr, op': BinOpr, a: Tree, b: Tree, c: Tree)
    ensures Respects(Binary(op', Binary(op, a, b), c)) ==> FirstTakes(op, op')
    ensures Respects(Binary(op, a, Binary(op', b, c))) ==> !FirstTakes(op, op')
  {
  }

  /** Every pair of binary operators between simple operands, as subexpr reads it. */
  lemma TwoOperators(op: BinOpr, op': BinOpr, x: nat, y: nat, z: nat, room: nat)
    requires room >= 3
    ensures SubExprOf([Atom(x), Symbol(op), Atom(y), Symbol(op'), Atom(z)], 0, room) ==
              Parsed(if FirstTakes(op, op') then Binary(op', Binary(op, Leaf(x), Leaf(y)), Leaf(z))
                     else Binary(op, Leaf(x), Binary(op', Leaf(y), Leaf(z))), [])
  {
    hide SubExprOf;
    var e := if FirstTakes(op, op') then Binary(op', Binary(op, Leaf(x), Leaf(y)), Leaf(z))
             else Binary(op, Leaf(x), Binary(op', Leaf(y), Leaf(z)));
    assert Tokens(Binary(op, Leaf(x), Leaf(y))) == [Atom(x), Symbol(op), Atom(y)];
    assert Tokens(Binary(op', Leaf(y), Leaf(z))) == [Atom(y), Symbol(op'), Atom(z)];
    assert Tokens(e) + [] == [Atom(x), Symbol(op), Atom(y), Symbol(op'), Atom(z)];
    SimpleOperands(MINUS, op, x, y);
    SimpleOperands(MINUS, op', y, z);
    SimpleOperands(MINUS, op', z, y);
    AboveZero(e);
    HoldsNone(e);
    SubExprExactly(Tokens(e) + [], 0, room, e, []);
  }

  /** No binary operator is left over: what is read without a limit goes on as far as operators do, and an operator
      without an operand behind it is an error. */
  lemma NoOperatorLeft(ts: seq<Token>, room: nat, x: nat, op: BinOpr)
    ensures var p := SubExprOf(ts, 0, room); p.Parsed? && p.rest != [] ==> !p.rest[0].Symbol?
    ensures room >= 2 ==> SubExprOf([Atom(x), Symbol(op)], 0, room) == SyntaxError
  {
    if SubExprOf(ts, 0, room).Parsed? {
      SubExprSound(ts, 0, room);
    }
    if room >= 2 {
      assert [Atom(x), Symbol(op)][1..] == [Symbol(op)] && [Symbol(op)][1..] == [];
      assert SubExprOf([], Right(op), room - 1) == SyntaxError;
    }
  }

  lemma SimpleOperands(uop: UnOpr, op: BinOpr, x: nat, y: nat)
    ensures Respects(Binary(op, Leaf(x), Leaf(y))) && Respects(Unary(uop, Leaf(x)))
    ensures Nest(Leaf(x)) == 1 && Nest(Binary(op, Leaf(x), Leaf(y))) == 2 && Nest(Unary(uop, Leaf(x))) == 2
  {
    assert Respects(Leaf(x)) && Respects(Leaf(y));
    assert Nest(Leaf(x)) == 1 && Nest(Leaf(y)) == 1;
  }

  /** A unary operator binds tighter than every binary operator but `^`, which takes a unary operand on its right. */
  lemma UnaryBelowPower(sign: Token, uop: UnOpr, op: BinOpr, x: nat, y: nat, room: nat)
    requires room >= 3 && (sign, uop) in {(NotSign, NOT), (LenSign, LEN), (Symbol(SUB), MINUS)}
    ensures SubExprOf([sign, Atom(x), Symbol(op), Atom(y)], 0, room) ==
              Parsed(if op.POW? then Unary(uop, Binary(op, Leaf(x), Leaf(y))) else Binary(op, Unary(uop, Leaf(x)), Leaf(y)), [])
    ensures SubExprOf([Atom(x), Symbol(op), sign, Atom(y)], 0, room) == Parsed(Binary(op, Leaf(x), Unary(uop, Leaf(y))), [])
  {
    hide SubExprOf;
    var e := if op.POW? then Unary(uop, Binary(op, Leaf(x), Leaf(y))) else Binary(op, Unary(uop, Leaf(x)), Leaf(y));
    var f := Binary(op, Leaf(x), Unary(uop, Leaf(y)));
    assert Tokens(Binary(op, Leaf(x), Leaf(y))) == [Atom(x), Symbol(op), Atom(y)];
    assert Tokens(Unary(uop, Leaf(x))) == [sign, Atom(x)] && Tokens(Unary(uop, Leaf(y))) == [sign, Atom(y)];
    assert Tokens(e) + [] == [sign, Atom(x), Symbol(op), Atom(y)];
    assert Tokens(f) + [] == [Atom(x), Symbol(op), sign, Atom(y)];
    SimpleOperands(uop, op, x, y);
    SimpleOperands(uop, op, y, x);
    AboveZero(e);
    HoldsNone(e);
    AboveZero(f);
    HoldsNone(f);
    SubExprExactly(Tokens(e) + [], 0, room, e, []);
    SubExprExactly(Tokens(f) + [], 0, room, f, []);
  }

  // ---- subexpr itself

  class LexState {
    var input: seq<Token>  // the current token and those behind it
    var nCcalls: nat

    constructor (tokens: seq<Token>)
      ensures input == tokens && nCcalls == 0
    {
      input, nCcalls := tokens, 0;
    }

    /** subexpr: recursion for operands, a loop for the operators above the limit.  On success the
        input left is what the function says, and the level is back where it was. */
    method SubExpr(limit: nat) returns (v: Parsed)
      requires nCcalls <= MAXCCALLS
      modifies this
      ensures v == SubExprOf(old(input), limit, MAXCCALLS - old(nCcalls))
      ensures v.Parsed? ==> input == v.rest && nCcalls == old(nCcalls)
      decreases |input|, 2
    {
      nCcalls := nCcalls + 1;
      if nCcalls > MAXCCALLS {
        return TooManyLevels;
      }
      v := Operand();
      if !v.Parsed? {
        return;
      }
      var e := v.e;
      while Next(input) > 0 && Next(input) > limit
        invariant nCcalls == old(nCcalls) + 1 <= MAXCCALLS && |input| < |old(input)|
        invariant SubExprOf(old(input), limit, MAXCCALLS - old(nCcalls)) == LoopOf(e, input, limit, MAXCCALLS - nCcalls)
        decreases |input|
      {
        var op := input[0].op;
        input := input[1..];
        v := SubExpr(Right(op));
        if !v.Parsed? {
          return;
        }
        e := Binary(op, e, v.e);
      }
      nCcalls := nCcalls - 1;
      v := Parsed(e, input);
    }

    /** The first operand: a unary operator with its own, or a simple expression. */
    method Operand() returns (v: Parsed)
      requires nCcalls <= MAXCCALLS
      modifies this
      ensures v == OperandOf(old(input), MAXCCALLS - old(nCcalls))
      ensures v.Parsed? ==> input == v.rest && nCcalls == old(nCcalls)
      decreases |input|, 1
    {
      if input == [] {
        return SyntaxError;
      }
      var t := input[0];
      input := input[1..];
      if GetUnOpr(t).Some? {
        v := SubExpr(UNARY_PRIORITY);
        if v.Parsed? {
          v := Parsed(Unary(GetUnOpr(t).value, v.e), input);
        }
      } else if t.Atom? {
        v := Parsed(Leaf(t.n), input);
      } else if t.Open? {
        v := SubExpr(0);
        if v.Parsed? {
          if input == [] || !input[0].Close? {
            return SyntaxError;
          }
          input := input[1..];
          v := Parsed(Group(v.e), input);
        }
      } else {
        v := SyntaxError;
      }
    }
  }
}
