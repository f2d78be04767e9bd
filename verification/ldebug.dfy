/** The bytecode checker (precheck, symbexec, luaG_checkcode in ldebug.c) against the steps of the virtual machine. */
module LuaChecker {

  // ---------------------------------------------------------------------------
  // Instructions (lopcodes.h)
  // ---------------------------------------------------------------------------

  type Instruction = i: int | 0 <= i < 0x1_0000_0000 witness 0

  function Opcode(i: Instruction): nat { i % 64 }
  function ArgA(i: Instruction): nat { (i / 64) % 256 }
  function ArgB(i: Instruction): nat { (i / 0x80_0000) % 512 }
  function ArgC(i: Instruction): nat { (i / 0x4000) % 512 }
  function ArgBx(i: Instruction): nat { (i / 0x4000) % 0x4_0000 }
  function ArgSBx(i: Instruction): int { ArgBx(i) - MAXARG_SBX }

  /** MAXARG_Bx and MAXARG_sBx: the offset of a jump is stored in excess of half the largest Bx. */
  const MAXARG_BX: nat := 0x3_FFFF
  const MAXARG_SBX: nat := MAXARG_BX / 2

  /** CREATE_ABC, CREATE_ABx and a jump. */
  function CreateABC(op: nat, a: nat, b: nat, c: nat): Instruction
    requires op < 64 && a < 256 && b < 512 && c < 512
  {
    op + a * 0x40 + c * 0x4000 + b * 0x80_0000
  }

  function CreateABx(op: nat, a: nat, bx: nat): Instruction
    requires op < 64 && a < 256 && bx <= MAXARG_BX
  {
    op + a * 0x40 + bx * 0x4000
  }

  /** The fields of an instruction are what it was made of. */
  lemma FieldsABC(op: nat, a: nat, b: nat, c: nat)
    requires op < 64 && a < 256 && b < 512 && c < 512
    ensures var i := CreateABC(op, a, b, c); Opcode(i) == op && ArgA(i) == a && ArgB(i) == b && ArgC(i) == c
  {
    var i := CreateABC(op, a, b, c);
    assert i / 64 == a + 256 * (c + 512 * b) && i / 0x4000 == c + 512 * b && i / 0x80_0000 == b;
  }

  lemma FieldsABx(op: nat, a: nat, sbx: int)
    requires op < 64 && a < 256 && -(MAXARG_SBX as int) <= sbx <= MAXARG_SBX + 1
    ensures var i := CreateABx(op, a, sbx + MAXARG_SBX); Opcode(i) == op && ArgA(i) == a && ArgSBx(i) == sbx
  {
    var bx: nat := sbx + MAXARG_SBX;
    var i := CreateABx(op, a, bx);
    assert i / 64 == a + 256 * bx && i / 0x4000 == bx;
  }

  const BITRK: nat := 256
  const NO_REG: nat := 255
  const LUAI_MAXSTACK: nat := 250

  const OP_MOVE: nat := 0
  const OP_LOADK: nat := 1
  const OP_LOADBOOL: nat := 2
  const OP_LOADNIL: nat := 3
  const OP_GETUPVAL: nat := 4
  const OP_GETGLOBAL: nat := 5
  const OP_GETTABLE: nat := 6
  const OP_SETGLOBAL: nat := 7
  const OP_SETUPVAL: nat := 8
  const OP_SETTABLE: nat := 9
  const OP_NEWTABLE: nat := 10
  const OP_SELF: nat := 11
  const OP_ADD: nat := 12
  const OP_POW: nat := 17
  const OP_UNM: nat := 18
  const OP_NOT: nat := 19
  const OP_LEN: nat := 20
  const OP_CONCAT: nat := 21
  const OP_JMP: nat := 22
  const OP_EQ: nat := 23
  const OP_LT: nat := 24
  const OP_LE: nat := 25
  const OP_TEST: nat := 26
  const OP_TESTSET: nat := 27
  const OP_CALL: nat := 28
  const OP_TAILCALL: nat := 29
  const OP_RETURN: nat := 30
  const OP_FORLOOP: nat := 31
  const OP_FORPREP: nat := 32
  const OP_TFORLOOP: nat := 33
  const OP_SETLIST: nat := 34
  const OP_CLOSE: nat := 35
  const OP_CLOSURE: nat := 36
  const OP_VARARG: nat := 37
  const NUM_OPCODES: nat := 38

  datatype OpMode = IABC | IABx | IAsBx
  datatype OpArg = ArgN | ArgU | ArgR | ArgK
  datatype Mode = Mode(t: bool, a: bool, b: OpArg, c: OpArg, m: OpMode)

  /** luaP_opmodes */
  const OPMODES: seq<Mode> := [
    Mode(false, true, ArgR, ArgN, IABC),    // OP_MOVE
    Mode(false, true, ArgK, ArgN, IABx),    // OP_LOADK
    Mode(false, true, ArgU, ArgU, IABC),    // OP_LOADBOOL
    Mode(false, true, ArgR, ArgN, IABC),    // OP_LOADNIL
    Mode(false, true, ArgU, ArgN, IABC),    // OP_GETUPVAL
    Mode(false, true, ArgK, ArgN, IABx),    // OP_GETGLOBAL
    Mode(false, true, ArgR, ArgK, IABC),    // OP_GETTABLE
    Mode(false, false, ArgK, ArgN, IABx),   // OP_SETGLOBAL
    Mode(false, false, ArgU, ArgN, IABC),   // OP_SETUPVAL
    Mode(false, false, ArgK, ArgK, IABC),   // OP_SETTABLE
    Mode(false, true, ArgU, ArgU, IABC),    // OP_NEWTABLE
    Mode(false, true, ArgR, ArgK, IABC),    // OP_SELF
    Mode(false, true, ArgK, ArgK, IABC),    // OP_ADD
    Mode(false, true, ArgK, ArgK, IABC),    // OP_SUB
    Mode(false, true, ArgK, ArgK, IABC),    // OP_MUL
    Mode(false, true, ArgK, ArgK, IABC),    // OP_DIV
    Mode(false, true, ArgK, ArgK, IABC),    // OP_MOD
    Mode(false, true, ArgK, ArgK, IABC),    // OP_POW
    Mode(false, true, ArgR, ArgN, IABC),    // OP_UNM
    Mode(false, true, ArgR, ArgN, IABC),    // OP_NOT
    Mode(false, true, ArgR, ArgN, IABC),    // OP_LEN
    Mode(false, true, ArgR, ArgR, IABC),    // OP_CONCAT
    Mode(false, false, ArgR, ArgN, IAsBx),  // OP_JMP
    Mode(true, false, ArgK, ArgK, IABC),    // OP_EQ
    Mode(true, false, ArgK, ArgK, IABC),    // OP_LT
    Mode(true, false, ArgK, ArgK, IABC),    // OP_LE
    Mode(true, true, ArgR, ArgU, IABC),     // OP_TEST
    Mode(true, true, ArgR, ArgU, IABC),     // OP_TESTSET
    Mode(false, true, ArgU, ArgU, IABC),    // OP_CALL
    Mode(false, true, ArgU, ArgU, IABC),    // OP_TAILCALL
    Mode(false, false, ArgU, ArgN, IABC),   // OP_RETURN
    Mode(false, true, ArgR, ArgN, IAsBx),   // OP_FORLOOP
    Mode(false, true, ArgR, ArgN, IAsBx),   // OP_FORPREP
    Mode(true, false, ArgN, ArgU, IABC),    // OP_TFORLOOP
    Mode(false, false, ArgU, ArgU, IABC),   // OP_SETLIST
    Mode(false, false, ArgN, ArgN, IABC),   // OP_CLOSE
    Mode(false, true, ArgU, ArgN, IABx),    // OP_CLOSURE
    Mode(false, true, ArgU, ArgN, IABC)     // OP_VARARG
  ]

  function ModeOf(op: nat): Mode
    requires op < NUM_OPCODES
  {
    OPMODES[op]
  }

  /** What the checker reads of a prototype: `strings` says which constants are strings, `protos` how many
      upvalues each nested prototype has. */
  datatype Proto = Proto(code: seq<Instruction>, maxstacksize: nat, numparams: nat, hasarg: bool, isvararg: bool, needsarg: bool,
                         nups: nat, sizeupvalues: nat, sizelineinfo: nat, strings: seq<bool>, protos: seq<nat>)

  // ---------------------------------------------------------------------------
  // SETLIST count words
  // ---------------------------------------------------------------------------

  /** A SETLIST whose count is the next word; only its bits are looked at, so a count can look like one. */
  predicate OpenList(i: Instruction) {
    Opcode(i) == OP_SETLIST && ArgC(i) == 0
  }

  /** The word at p is the count of the SETLIST before it, not an instruction. */
  predicate IsCount(code: seq<Instruction>, p: nat)
    requires p <= |code|
  {
    p > 0 && OpenList(code[p - 1]) && !IsCount(code, p - 1)
  }

  /** The parity check: in an unbroken run of words that look like open SETLISTs, instructions and counts
      alternate. */
  lemma {:induction false} CountParity(code: seq<Instruction>, dest: nat, j: nat)
    requires dest <= |code| && j <= dest
    requires forall k :: dest - j <= k < dest ==> OpenList(code[k])
    requires j == dest || !OpenList(code[dest - 1 - j])
    ensures IsCount(code, dest) <==> j % 2 == 1
  {
    if j > 0 {
      CountParity(code, dest - 1, j - 1);
    }
  }

  /** The loop in symbexec that looks backwards from a jump target. */
  method ListRun(code: seq<Instruction>, dest: nat) returns (j: nat)
    requires dest <= |code|
    ensures IsCount(code, dest) <==> j % 2 == 1
  {
    j := 0;
    while j < dest && OpenList(code[dest - 1 - j])
      invariant j <= dest
      invariant forall k :: dest - j <= k < dest ==> OpenList(code[k])
    {
      j := j + 1;
    }
    CountParity(code, dest, j);
  }

  // ---------------------------------------------------------------------------
  // What the checker demands
  // ---------------------------------------------------------------------------

  predicate Precheck(pt: Proto) {
    && pt.maxstacksize <= LUAI_MAXSTACK
    && pt.numparams + (if pt.hasarg then 1 else 0) <= pt.maxstacksize
    && (pt.needsarg ==> pt.hasarg)
    && pt.sizeupvalues <= pt.nups
    && (pt.sizelineinfo == |pt.code| || pt.sizelineinfo == 0)
    && |pt.code| > 0 && Opcode(pt.code[|pt.code| - 1]) == OP_RETURN
  }

  /** luaG_checkopenop */
  predicate CheckOpenOp(i: Instruction) {
    Opcode(i) in {OP_CALL, OP_TAILCALL, OP_RETURN, OP_SETLIST} && ArgB(i) == 0
  }

  predicate CheckArgMode(pt: Proto, r: nat, mode: OpArg) {
    match mode
    case ArgN => r == 0
    case ArgU => true
    case ArgR => r < pt.maxstacksize
    case ArgK => if r >= BITRK then r - BITRK < |pt.strings| else r < pt.maxstacksize
  }

  predicate JumpOk(pt: Proto, dest: int) {
    0 <= dest < |pt.code| && !IsCount(pt.code, dest)
  }

  predicate ModeOk(pt: Proto, pc: nat)
    requires pc < |pt.code| && Opcode(pt.code[pc]) < NUM_OPCODES
  {
    var i := pt.code[pc];
    var mode := ModeOf(Opcode(i));
    && (match mode.m
        case IABC => CheckArgMode(pt, ArgB(i), mode.b) && CheckArgMode(pt, ArgC(i), mode.c)
        case IABx => mode.b == ArgK ==> ArgBx(i) < |pt.strings|
        case IAsBx => mode.b == ArgR ==> JumpOk(pt, pc + 1 + ArgSBx(i)))
    && (mode.t ==> pc + 2 < |pt.code| && Opcode(pt.code[pc + 1]) == OP_JMP)
  }

  predicate OpOk(pt: Proto, pc: nat)
    requires pc < |pt.code|
  {
    var i := pt.code[pc];
    var op, a, b, c := Opcode(i), ArgA(i), ArgB(i), ArgC(i);
    if op == OP_LOADBOOL then c == 1 ==> pc + 2 < |pt.code| && !OpenList(pt.code[pc + 1])
    else if op == OP_GETUPVAL || op == OP_SETUPVAL then b < pt.nups
    else if op == OP_GETGLOBAL || op == OP_SETGLOBAL then ArgBx(i) < |pt.strings| && pt.strings[ArgBx(i)]
    else if op == OP_SELF then a + 1 < pt.maxstacksize
    else if op == OP_CONCAT then b < c
    else if op == OP_TFORLOOP then c >= 1 && a + 2 + c < pt.maxstacksize
    else if op == OP_FORLOOP || op == OP_FORPREP then a + 3 < pt.maxstacksize
    else if op == OP_CALL || op == OP_TAILCALL then
      && (b != 0 ==> a + b - 1 < pt.maxstacksize)
      && (c == 0 ==> pc + 1 < |pt.code| && CheckOpenOp(pt.code[pc + 1]))
      && (c > 1 ==> a + c - 2 < pt.maxstacksize)
    else if op == OP_RETURN then b > 1 ==> a + b - 2 < pt.maxstacksize
    else if op == OP_SETLIST then
      && (b > 0 ==> a + b < pt.maxstacksize)
      && (c == 0 ==> pc + 1 < |pt.code| - 1)
    else if op == OP_CLOSURE then
      && ArgBx(i) < |pt.protos|
      && pc + pt.protos[ArgBx(i)] < |pt.code|
      && forall q :: pc < q <= pc + pt.protos[ArgBx(i)] ==> Opcode(pt.code[q]) in {OP_GETUPVAL, OP_MOVE}
    else if op == OP_VARARG then
      && pt.isvararg && !pt.needsarg
      && (b == 0 ==> pc + 1 < |pt.code| && CheckOpenOp(pt.code[pc + 1]))
      && a + b - 2 < pt.maxstacksize
    else true
  }

  predicate InstructionOk(pt: Proto, pc: nat)
    requires pc < |pt.code|
  {
    Opcode(pt.code[pc]) < NUM_OPCODES && ArgA(pt.code[pc]) < pt.maxstacksize && ModeOk(pt, pc) && OpOk(pt, pc)
  }

  ghost predicate CheckedAt(pt: Proto, pc: int) {
    0 <= pc < |pt.code| && !IsCount(pt.code, pc) ==> InstructionOk(pt, pc)
  }

  /** Every word that is an instruction passes the checks. */
  ghost predicate Accepts(pt: Proto) {
    Precheck(pt) && forall pc :: CheckedAt(pt, pc)
  }

  /** The instructions are checked without the debug information. */
  lemma DebugPlaysNoPart(a: Proto, b: Proto)
    requires Accepts(a) && b == a.(sizeupvalues := 0, sizelineinfo := 0)
    ensures Accepts(b)
  {
    hide Opcode, ArgA, ArgB, ArgC, ArgBx, ArgSBx, IsCount, ModeOf;
    forall pc ensures CheckedAt(b, pc) {
      assert CheckedAt(a, pc);
    }
  }

  // ---------------------------------------------------------------------------
  // symbexec without a traced register
  // ---------------------------------------------------------------------------

  method CheckJump(pt: Proto, pc: nat, sbx: int) returns (ok: bool)
    requires pc < |pt.code|
    ensures ok <==> JumpOk(pt, pc + 1 + sbx)
  {
    var dest := pc + 1 + sbx;
    if !(0 <= dest < |pt.code|) {
      return false;
    }
    if dest > 0 {
      var j := ListRun(pt.code, dest);
      if j % 2 != 0 {
        return false;
      }
    }
    ok := true;
  }

  /** The checks by instruction format. */
  method CheckMode(pt: Proto, pc: nat) returns (ok: bool)
    requires pc < |pt.code| && Opcode(pt.code[pc]) < NUM_OPCODES
    ensures ok <==> ModeOk(pt, pc)
  {
    var i := pt.code[pc];
    var mode := ModeOf(Opcode(i));
    match mode.m {
      case IABC =>
        if !CheckArgMode(pt, ArgB(i), mode.b) { return false; }
        if !CheckArgMode(pt, ArgC(i), mode.c) { return false; }
      case IABx =>
        if mode.b == ArgK {
          if !(ArgBx(i) < |pt.strings|) { return false; }
        }
      case IAsBx =>
        if mode.b == ArgR {
          var jump := CheckJump(pt, pc, ArgSBx(i));
          if !jump { return false; }
        }
    }
    if mode.t {
      if !(pc + 2 < |pt.code|) { return false; }
      if Opcode(pt.code[pc + 1]) != OP_JMP { return false; }
    }
    ok := true;
  }

  method CheckPseudo(pt: Proto, pc: nat, nup: nat) returns (ok: bool)
    requires pc + nup < |pt.code|
    ensures ok <==> forall q :: pc < q <= pc + nup ==> Opcode(pt.code[q]) in {OP_GETUPVAL, OP_MOVE}
  {
    var j := 1;
    while j <= nup
      invariant 1 <= j <= nup + 1
      invariant forall q :: pc < q < pc + j ==> Opcode(pt.code[q]) in {OP_GETUPVAL, OP_MOVE}
    {
      if !(Opcode(pt.code[pc + j]) in {OP_GETUPVAL, OP_MOVE}) {
        return false;
      }
      j := j + 1;
    }
    ok := true;
  }

  /** luaG_checkcode: one pass over the code; the result is the last instruction that changed NO_REG, and so
      not zero, or zero if a check failed. */
  method CheckCode(pt: Proto) returns (r: Instruction)
    ensures r != 0 <==> Accepts(pt)
    ensures r != 0 <==> Lawful(pt)
  {
    hide Lawful, Limits;
    AcceptsExactly(pt);
    if !Precheck(pt) {
      return 0;
    }
    var last := |pt.code| - 1;
    var pc := 0;
    while pc < |pt.code|
      invariant 0 <= pc <= |pt.code| && !IsCount(pt.code, pc)
      invariant forall p :: p < pc ==> CheckedAt(pt, p)
      invariant 0 <= last < |pt.code| && pt.code[last] != 0
    {
      var i := pt.code[pc];
      var op, a := Opcode(i), ArgA(i);
      assert CheckedAt(pt, pc) <==> InstructionOk(pt, pc);
      if !(op < NUM_OPCODES) || !(a < pt.maxstacksize) {
        return 0;
      }
      var mode := CheckMode(pt, pc);
      if !mode {
        return 0;
      }
      if op == OP_CLOSURE {
        if !(ArgBx(i) < |pt.protos|) || !(pc + pt.protos[ArgBx(i)] < |pt.code|) {
          return 0;
        }
        var pseudo := CheckPseudo(pt, pc, pt.protos[ArgBx(i)]);
        if !pseudo {
          return 0;
        }
      } else if !OpOk(pt, pc) {
        return 0;
      }
      if ModeOf(op).a && a == NO_REG {
        last := pc;
      }
      if (op == OP_LOADNIL && a <= NO_REG <= ArgB(i)) || (op == OP_SELF && NO_REG == a + 1) || (op == OP_TFORLOOP && NO_REG >= a + 2)
         || ((op == OP_CALL || op == OP_TAILCALL) && NO_REG >= a) {
        last := pc;
      }
      NeutralLast(pt, pc);
      if op == OP_SETLIST && ArgC(i) == 0 {
        pc := pc + 1;
        assert IsCount(pt.code, pc);
      }
      pc := pc + 1;
    }
    r := pt.code[last];
  }

  /** No instruction that passes the checks sets NO_REG, and those that affect all registers are not zero. */
  lemma NeutralLast(pt: Proto, pc: nat)
    requires pc < |pt.code| && Precheck(pt) && InstructionOk(pt, pc)
    ensures ArgA(pt.code[pc]) != NO_REG && ArgA(pt.code[pc]) + 1 != NO_REG
    ensures Opcode(pt.code[pc]) == OP_LOADNIL ==> ArgB(pt.code[pc]) < NO_REG
    ensures Opcode(pt.code[pc]) in {OP_TFORLOOP, OP_CALL, OP_TAILCALL} ==> pt.code[pc] != 0
  {
    if Opcode(pt.code[pc]) == OP_LOADNIL {
      assert ModeOf(OP_LOADNIL) == Mode(false, true, ArgR, ArgN, IABC);
    }
  }

  // ---------------------------------------------------------------------------
  // The steps of the virtual machine inside a function
  // ---------------------------------------------------------------------------

  /** luaV_execute may go from pc to next without leaving the function (a call returns to the next
      instruction, a tail call too if it called a C function). */
  predicate Steps(pt: Proto, pc: nat, next: int)
    requires pc < |pt.code|
  {
    var i := pt.code[pc];
    var op := Opcode(i);
    if op == OP_LOADBOOL then next == if ArgC(i) != 0 then pc + 2 else pc + 1
    else if op == OP_JMP || op == OP_FORPREP then next == pc + 1 + ArgSBx(i)
    else if op == OP_FORLOOP then next == pc + 1 || next == pc + 1 + ArgSBx(i)
    else if op in {OP_EQ, OP_LT, OP_LE, OP_TEST, OP_TESTSET, OP_TFORLOOP} then
      next == pc + 2 || (pc + 1 < |pt.code| && next == pc + 2 + ArgSBx(pt.code[pc + 1]))
    else if op == OP_RETURN then false
    else if op == OP_SETLIST then next == if ArgC(i) == 0 then pc + 2 else pc + 1
    else if op == OP_CLOSURE then ArgBx(i) < |pt.protos| && next == pc + 1 + pt.protos[ArgBx(i)]
    else next == pc + 1
  }

  /** The word at pc is an instruction of this function. */
  predicate IsInstruction(pt: Proto, pc: int) {
    0 <= pc < |pt.code| && !IsCount(pt.code, pc)
  }

  /** A LOADBOOL that skips: the checker looks at the skipped word only when C is exactly 1. */
  predicate SkipOk(pt: Proto, pc: nat)
    requires pc < |pt.code|
  {
    Opcode(pt.code[pc]) == OP_LOADBOOL && ArgC(pt.code[pc]) >= 2 ==> pc + 2 < |pt.code| && !OpenList(pt.code[pc + 1])
  }

  /** Every step from a checked instruction stays on instructions, with the one exception of LOADBOOL. */
  lemma StepStays(pt: Proto, pc: nat, next: int)
    requires Accepts(pt) && IsInstruction(pt, pc) && Steps(pt, pc, next)
    ensures Opcode(pt.code[pc]) != OP_LOADBOOL || ArgC(pt.code[pc]) < 2 ==> IsInstruction(pt, next)
    ensures Opcode(pt.code[pc]) == OP_LOADBOOL && ArgC(pt.code[pc]) >= 2 ==> (IsInstruction(pt, next) <==> SkipOk(pt, pc))
  {
    assert CheckedAt(pt, pc);
    var i := pt.code[pc];
    var op := Opcode(i);
    LastStays(pt, pc);
    assert ModeOf(op) == OPMODES[op];
    if op in {OP_EQ, OP_LT, OP_LE, OP_TEST, OP_TESTSET, OP_TFORLOOP} {
      TestStays(pt, pc);
    } else if op == OP_CLOSURE {
      ClosureStays(pt, pc);
    } else if op == OP_LOADBOOL {
      assert !IsCount(pt.code, pc + 1);
    }
  }

  /** Behind a test comes its jump, which leads to an instruction, and one more instruction. */
  lemma TestStays(pt: Proto, pc: nat)
    requires Accepts(pt) && IsInstruction(pt, pc)
    requires Opcode(pt.code[pc]) in {OP_EQ, OP_LT, OP_LE, OP_TEST, OP_TESTSET, OP_TFORLOOP}
    ensures IsInstruction(pt, pc + 1) && IsInstruction(pt, pc + 2) && JumpOk(pt, pc + 2 + ArgSBx(pt.code[pc + 1]))
  {
    hide ArgA, ArgB, ArgC, ArgBx, ArgSBx, Opcode;
    assert CheckedAt(pt, pc);
    assert ModeOf(Opcode(pt.code[pc])) == OPMODES[Opcode(pt.code[pc])];
    assert IsInstruction(pt, pc + 1) && CheckedAt(pt, pc + 1);
    assert ModeOf(OP_JMP) == Mode(false, false, ArgR, ArgN, IAsBx);
  }

  /** The last word is a RETURN, and it is an instruction. */
  lemma LastStays(pt: Proto, pc: nat)
    requires Accepts(pt) && IsInstruction(pt, pc)
    ensures pc == |pt.code| - 1 ==> Opcode(pt.code[pc]) == OP_RETURN
    ensures !IsCount(pt.code, |pt.code| - 1)
  {
    var n := |pt.code| - 1;
    if n > 0 {
      assert CheckedAt(pt, n - 1);
    }
  }

  lemma ClosureStays(pt: Proto, pc: nat)
    requires Accepts(pt) && IsInstruction(pt, pc) && Opcode(pt.code[pc]) == OP_CLOSURE
    ensures ArgBx(pt.code[pc]) < |pt.protos| && IsInstruction(pt, pc + 1 + pt.protos[ArgBx(pt.code[pc])])
  {
    assert CheckedAt(pt, pc);
    LastStays(pt, pc);
    var nup := pt.protos[ArgBx(pt.code[pc])];
    if nup > 0 {
      assert Opcode(pt.code[pc + nup]) in {OP_GETUPVAL, OP_MOVE};
    }
  }

  // ---------------------------------------------------------------------------
  // Whole runs
  // ---------------------------------------------------------------------------

  ghost predicate RunStep(pt: Proto, s: seq<int>, k: int) {
    0 <= k < |s| - 1 ==> 0 <= s[k] < |pt.code| && Steps(pt, s[k], s[k + 1])
  }

  /** A run of the function from its first instruction. */
  ghost predicate Run(pt: Proto, s: seq<int>) {
    |s| > 0 && s[0] == 0 && forall k :: RunStep(pt, s, k)
  }

  ghost predicate Reached(pt: Proto, p: int) {
    exists s :: Run(pt, s) && s[|s| - 1] == p
  }

  /** All LOADBOOLs that skip do so over an instruction, whatever the value of C. */
  ghost predicate LoadBoolsOk(pt: Proto) {
    forall pc :: IsInstruction(pt, pc) ==> SkipOk(pt, pc)
  }

  lemma {:induction false} RunStays(pt: Proto, s: seq<int>)
    requires Accepts(pt) && Run(pt, s) && forall p :: Reached(pt, p) && IsInstruction(pt, p) ==> SkipOk(pt, p)
    ensures IsInstruction(pt, s[|s| - 1])
    decreases |s|
  {
    hide Accepts, Steps, SkipOk;
    if |s| == 1 {
      StartStays(pt);
    } else {
      var t := s[..|s| - 1];
      forall k ensures RunStep(pt, t, k) {
        assert RunStep(pt, s, k);
      }
      assert Run(pt, t);
      RunStays(pt, t);
      assert Reached(pt, t[|t| - 1]) && RunStep(pt, s, |s| - 2);
      StepStays(pt, t[|t| - 1], s[|s| - 1]);
      LoadBoolStays(pt, t[|t| - 1]);
    }
  }

  lemma StartStays(pt: Proto)
    requires Accepts(pt)
    ensures IsInstruction(pt, 0)
  {
  }

  lemma LoadBoolStays(pt: Proto, pc: nat)
    requires pc < |pt.code|
    ensures Opcode(pt.code[pc]) != OP_LOADBOOL || ArgC(pt.code[pc]) < 2 ==> SkipOk(pt, pc)
  {
  }

  /** In accepted code every run stays on instructions, exactly when the LOADBOOLs it meets with C >= 2 skip
      over an instruction that is not an open SETLIST. */
  lemma AcceptedRuns(pt: Proto)
    requires Accepts(pt)
    ensures (forall p :: Reached(pt, p) ==> IsInstruction(pt, p)) <==>
            (forall p :: Reached(pt, p) && IsInstruction(pt, p) ==> SkipOk(pt, p))
  {
    if forall p :: Reached(pt, p) && IsInstruction(pt, p) ==> SkipOk(pt, p) {
      forall p | Reached(pt, p) ensures IsInstruction(pt, p) {
        var s :| Run(pt, s) && s[|s| - 1] == p;
        RunStays(pt, s);
      }
    }
    if forall p :: Reached(pt, p) ==> IsInstruction(pt, p) {
      forall p | Reached(pt, p) && IsInstruction(pt, p) ensures SkipOk(pt, p) {
        if Opcode(pt.code[p]) == OP_LOADBOOL && ArgC(pt.code[p]) >= 2 {
          var s :| Run(pt, s) && s[|s| - 1] == p;
          ReachNext(pt, s, p + 2);
          StepStays(pt, p, p + 2);
        }
      }
    }
  }

  lemma ReachNext(pt: Proto, s: seq<int>, next: int)
    requires Run(pt, s) && 0 <= s[|s| - 1] < |pt.code| && Steps(pt, s[|s| - 1], next)
    ensures Reached(pt, next)
  {
    var t := s + [next];
    forall k ensures RunStep(pt, t, k) {
      assert RunStep(pt, s, k);
    }
    assert Run(pt, t) && t[|t| - 1] == next;
  }

  /** A condition on the code alone. */
  lemma AcceptedCode(pt: Proto)
    requires Accepts(pt) && LoadBoolsOk(pt)
    ensures forall p :: Reached(pt, p) ==> IsInstruction(pt, p)
  {
    AcceptedRuns(pt);
  }

  const LOADBOOL_0_0_2: Instruction := 0x8002
  const RETURN_0_1: Instruction := 0x80_001E

  function Skipping(): Proto {
    Proto([LOADBOOL_0_0_2, RETURN_0_1], 2, 0, false, false, false, 0, 0, 0, [], [])
  }

  lemma Decoded()
    ensures Opcode(LOADBOOL_0_0_2) == OP_LOADBOOL && ArgA(LOADBOOL_0_0_2) == 0 && ArgB(LOADBOOL_0_0_2) == 0 && ArgC(LOADBOOL_0_0_2) == 2
    ensures Opcode(RETURN_0_1) == OP_RETURN && ArgA(RETURN_0_1) == 0 && ArgB(RETURN_0_1) == 1 && ArgC(RETURN_0_1) == 0
  {
  }

  lemma SkippingAccepted()
    ensures Accepts(Skipping())
  {
    hide Opcode, ArgA, ArgB, ArgC;
    Decoded();
    var pt := Skipping();
    assert ModeOf(OP_LOADBOOL) == Mode(false, true, ArgU, ArgU, IABC) && ModeOf(OP_RETURN) == Mode(false, false, ArgU, ArgN, IABC);
    assert InstructionOk(pt, 0) && InstructionOk(pt, 1);
    forall pc ensures CheckedAt(pt, pc) {
      assert 0 <= pc < 2 ==> pc == 0 || pc == 1;
    }
  }

  /** LOADBOOL 0 0 2 ; RETURN 0 1 is accepted, and its only run leaves the code. */
  lemma SkipLeavesCode()
    ensures Accepts(Skipping()) && Reached(Skipping(), 2) && !IsInstruction(Skipping(), 2)
  {
    hide Opcode, ArgA, ArgB, ArgC, Accepts;
    SkippingAccepted();
    Decoded();
    var pt := Skipping();
    var s := [0];
    assert forall k :: RunStep(pt, s, k);
    assert Run(pt, s) && s[|s| - 1] == 0;
    assert Steps(pt, 0, 2);
    ReachNext(pt, s, 2);
  }

  // ---------------------------------------------------------------------------
  // Operands
  // ---------------------------------------------------------------------------

  predicate RKTouches(x: nat, r: int) {
    x < BITRK && r == x
  }

  /** The instruction at pc reads or writes R(r) (the scratch slots of TFORLOOP's call aside). */
  predicate TouchesReg(pt: Proto, pc: nat, r: int)
    requires pc < |pt.code|
  {
    var i := pt.code[pc];
    var op, a, b, c := Opcode(i), ArgA(i), ArgB(i), ArgC(i);
    if op in {OP_MOVE, OP_UNM, OP_NOT, OP_LEN, OP_TESTSET} then r == a || r == b
    else if op in {OP_LOADK, OP_LOADBOOL, OP_GETUPVAL, OP_GETGLOBAL, OP_SETGLOBAL, OP_SETUPVAL, OP_NEWTABLE, OP_TEST, OP_CLOSE} then r == a
    else if op == OP_LOADNIL then r == b || a <= r <= b
    else if op == OP_GETTABLE then r == a || r == b || RKTouches(c, r)
    else if op == OP_SETTABLE || OP_ADD <= op <= OP_POW then r == a || RKTouches(b, r) || RKTouches(c, r)
    else if op == OP_SELF then r == a || r == a + 1 || r == b || RKTouches(c, r)
    else if op == OP_CONCAT then r == a || b <= r <= c
    else if op in {OP_EQ, OP_LT, OP_LE} then RKTouches(b, r) || RKTouches(c, r)
    else if op == OP_CALL then r == a || a <= r <= a + b - 1 || a <= r <= a + c - 2
    else if op == OP_TAILCALL then r == a || a <= r <= a + b - 1
    else if op == OP_RETURN then a <= r <= a + b - 2
    else if op == OP_FORLOOP || op == OP_FORPREP then a <= r <= a + 3
    else if op == OP_TFORLOOP then a <= r <= a + 2 + c
    else if op == OP_SETLIST then a <= r <= a + b
    else if op == OP_CLOSURE then
      r == a || (ArgBx(i) < |pt.protos| && exists q {:trigger pt.code[q]} :: pc < q <= pc + pt.protos[ArgBx(i)] && q < |pt.code| && Opcode(pt.code[q]) != OP_GETUPVAL && r == ArgB(pt.code[q]))
    else if op == OP_VARARG then a <= r <= a + b - 2
    else false
  }

  predicate TouchesConst(pt: Proto, pc: nat, k: int)
    requires pc < |pt.code|
  {
    var i := pt.code[pc];
    var op, b, c := Opcode(i), ArgB(i), ArgC(i);
    if op in {OP_LOADK, OP_GETGLOBAL, OP_SETGLOBAL} then k == ArgBx(i)
    else if op == OP_SETTABLE || OP_ADD <= op <= OP_POW || op in {OP_EQ, OP_LT, OP_LE} then k == b - BITRK >= 0 || k == c - BITRK >= 0
    else if op == OP_GETTABLE || op == OP_SELF then k == c - BITRK >= 0
    else false
  }

  predicate TouchesUpval(pt: Proto, pc: nat, u: int)
    requires pc < |pt.code|
  {
    var i := pt.code[pc];
    var op := Opcode(i);
    if op == OP_GETUPVAL || op == OP_SETUPVAL then u == ArgB(i)
    else op == OP_CLOSURE && ArgBx(i) < |pt.protos| &&
         exists q {:trigger pt.code[q]} :: pc < q <= pc + pt.protos[ArgBx(i)] && q < |pt.code| && Opcode(pt.code[q]) == OP_GETUPVAL && u == ArgB(pt.code[q])
  }

  /** What the mode table has checked of B and C. */
  lemma ModesChecked(pt: Proto, pc: nat)
    requires Accepts(pt) && IsInstruction(pt, pc)
    ensures OpOk(pt, pc) && ArgA(pt.code[pc]) < pt.maxstacksize
    ensures var (op, b, c) := (Opcode(pt.code[pc]), ArgB(pt.code[pc]), ArgC(pt.code[pc]));
            && (op in {OP_MOVE, OP_UNM, OP_NOT, OP_LEN, OP_TESTSET, OP_LOADNIL, OP_CONCAT, OP_GETTABLE, OP_SELF} ==> b < pt.maxstacksize)
            && (op == OP_CONCAT ==> c < pt.maxstacksize)
            && (op in {OP_GETTABLE, OP_SELF} ==> CheckArgMode(pt, c, ArgK))
            && (op == OP_SETTABLE || OP_ADD <= op <= OP_POW || op in {OP_EQ, OP_LT, OP_LE} ==>
                  CheckArgMode(pt, b, ArgK) && CheckArgMode(pt, c, ArgK))
            && (op == OP_LOADK ==> ArgBx(pt.code[pc]) < |pt.strings|)
  {
    hide Opcode, ArgA, ArgB, ArgC, ArgBx, ArgSBx, IsCount, OpOk, JumpOk, Precheck;
    assert CheckedAt(pt, pc);
    var op := Opcode(pt.code[pc]);
    assert ModeOf(op) == OPMODES[op];
  }

  lemma RegistersInRange(pt: Proto, pc: nat, r: int)
    requires Accepts(pt) && IsInstruction(pt, pc) && TouchesReg(pt, pc, r)
    ensures 0 <= r < pt.maxstacksize
  {
    hide Opcode, ArgA, ArgB, ArgC, ArgBx, Accepts;
    ModesChecked(pt, pc);
    if Opcode(pt.code[pc]) == OP_CLOSURE {
      PseudoOperands(pt, pc);
    }
  }

  lemma ConstantsInRange(pt: Proto, pc: nat, k: int)
    requires Accepts(pt) && IsInstruction(pt, pc) && TouchesConst(pt, pc, k)
    ensures 0 <= k < |pt.strings|
  {
    hide Opcode, ArgA, ArgB, ArgC, ArgBx, Accepts;
    ModesChecked(pt, pc);
  }

  lemma UpvaluesInRange(pt: Proto, pc: nat, u: int)
    requires Accepts(pt) && IsInstruction(pt, pc) && TouchesUpval(pt, pc, u)
    ensures 0 <= u < pt.nups
  {
    hide Opcode, ArgA, ArgB, ArgC, ArgBx, Accepts;
    ModesChecked(pt, pc);
    if Opcode(pt.code[pc]) == OP_CLOSURE {
      PseudoOperands(pt, pc);
    }
  }

  /** In accepted code, an instruction touches only registers, constants, upvalues and prototypes that exist;
      globals are named by strings. */
  lemma OperandsInRange(pt: Proto, pc: nat)
    requires Accepts(pt) && IsInstruction(pt, pc)
    ensures forall r :: TouchesReg(pt, pc, r) ==> 0 <= r < pt.maxstacksize
    ensures forall k :: TouchesConst(pt, pc, k) ==> 0 <= k < |pt.strings|
    ensures Opcode(pt.code[pc]) in {OP_GETGLOBAL, OP_SETGLOBAL} ==> ArgBx(pt.code[pc]) < |pt.strings| && pt.strings[ArgBx(pt.code[pc])]
    ensures forall u :: TouchesUpval(pt, pc, u) ==> 0 <= u < pt.nups
    ensures Opcode(pt.code[pc]) == OP_CLOSURE ==> ArgBx(pt.code[pc]) < |pt.protos|
  {
    hide Accepts, TouchesReg, TouchesConst, TouchesUpval;
    ModesChecked(pt, pc);
    forall r | TouchesReg(pt, pc, r) ensures 0 <= r < pt.maxstacksize { RegistersInRange(pt, pc, r); }
    forall k | TouchesConst(pt, pc, k) ensures 0 <= k < |pt.strings| { ConstantsInRange(pt, pc, k); }
    forall u | TouchesUpval(pt, pc, u) ensures 0 <= u < pt.nups { UpvaluesInRange(pt, pc, u); }
  }

  /** The words after a CLOSURE are checked as instructions, too. */
  lemma PseudoOperands(pt: Proto, pc: nat)
    requires Accepts(pt) && IsInstruction(pt, pc) && Opcode(pt.code[pc]) == OP_CLOSURE
    ensures ArgBx(pt.code[pc]) < |pt.protos| && pc + pt.protos[ArgBx(pt.code[pc])] < |pt.code|
    ensures forall q :: pc < q <= pc + pt.protos[ArgBx(pt.code[pc])] ==>
              if Opcode(pt.code[q]) == OP_GETUPVAL then ArgB(pt.code[q]) < pt.nups else ArgB(pt.code[q]) < pt.maxstacksize
  {
    assert CheckedAt(pt, pc);
    var nup := pt.protos[ArgBx(pt.code[pc])];
    forall q | pc < q <= pc + nup
      ensures if Opcode(pt.code[q]) == OP_GETUPVAL then ArgB(pt.code[q]) < pt.nups else ArgB(pt.code[q]) < pt.maxstacksize
    {
      assert q - 1 > pc ==> Opcode(pt.code[q - 1]) in {OP_GETUPVAL, OP_MOVE};
      assert IsInstruction(pt, q) && CheckedAt(pt, q);
      assert ModeOf(OP_MOVE) == Mode(false, true, ArgR, ArgN, IABC);
    }
  }

  /** After a call with an open number of results comes the instruction that takes them up to the top. */
  lemma OpenCallsTaken(pt: Proto, pc: nat)
    requires Accepts(pt) && IsInstruction(pt, pc)
    requires (Opcode(pt.code[pc]) == OP_CALL && ArgC(pt.code[pc]) == 0) || (Opcode(pt.code[pc]) == OP_VARARG && ArgB(pt.code[pc]) == 0)
    ensures IsInstruction(pt, pc + 1) && ArgB(pt.code[pc + 1]) == 0
    ensures Opcode(pt.code[pc + 1]) in {OP_CALL, OP_TAILCALL, OP_RETURN, OP_SETLIST}
  {
    assert CheckedAt(pt, pc);
    StepStays(pt, pc, pc + 1);
  }

  // ---------------------------------------------------------------------------
  // What acceptance means, in terms of the machine
  // ---------------------------------------------------------------------------

  datatype Values = Counted(n: nat) | UpToTop

  /** The values a call, a return or a list constructor takes from the stack (lvm.c): B says how many, or, when
      it is 0, that they reach up to the top. */
  function Taken(i: Instruction): Values {
    var op, b := Opcode(i), ArgB(i);
    if op == OP_CALL || op == OP_TAILCALL || op == OP_RETURN then if b == 0 then UpToTop else Counted(b - 1)
    else if op == OP_SETLIST then if b == 0 then UpToTop else Counted(b)
    else Counted(0)
  }

  /** The instruction leaves as many values as there are, and sets the top behind the last.  The machine ignores
      C in a tail call, but the checker reads it as in a call. */
  predicate LeavesOpen(i: Instruction) {
    var op := Opcode(i);
    ((op == OP_CALL || op == OP_TAILCALL) && ArgC(i) == 0) || (op == OP_VARARG && ArgB(i) == 0)
  }

  /** Limits of the whole prototype: 250 registers, among them the parameters and the table of arguments of an
      old-style vararg function; names for upvalues and lines, if any, for those there are; a return at the end. */
  predicate Limits(pt: Proto) {
    && pt.maxstacksize <= 250 && pt.sizeupvalues <= pt.nups && (pt.sizelineinfo != 0 ==> pt.sizelineinfo == |pt.code|)
    && (if pt.hasarg then pt.numparams < pt.maxstacksize else pt.numparams <= pt.maxstacksize && !pt.needsarg)
    && pt.code != [] && Opcode(pt.code[|pt.code| - 1]) == OP_RETURN
  }

  /** All the instruction names exists. */
  ghost predicate OperandsExist(pt: Proto, pc: nat)
    requires pc < |pt.code|
  {
    var i := pt.code[pc];
    && (forall r :: TouchesReg(pt, pc, r) ==> 0 <= r < pt.maxstacksize)
    && (forall k :: TouchesConst(pt, pc, k) ==> 0 <= k < |pt.strings|)
    && (forall u :: TouchesUpval(pt, pc, u) ==> 0 <= u < pt.nups)
    && (Opcode(i) == OP_GETGLOBAL || Opcode(i) == OP_SETGLOBAL ==> ArgBx(i) < |pt.strings| && pt.strings[ArgBx(i)])
    && (Opcode(i) == OP_CLOSURE ==> ArgBx(i) < |pt.protos|)
  }

  /** Control goes on at an instruction, but for what a LOADBOOL with C >= 2 skips to. */
  ghost predicate StepsInside(pt: Proto, pc: nat)
    requires pc < |pt.code|
  {
    forall next :: Steps(pt, pc, next) ==> IsInstruction(pt, next) || (Opcode(pt.code[pc]) == OP_LOADBOOL && ArgC(pt.code[pc]) >= 2)
  }

  /** What is asked for beyond what the machine needs: A is a register even where it is none, fields that are
      not used are 0 (in TEST: a register; in TAILCALL: what it would be in a CALL), the word behind a test is a jump, `..` has two operands, an iterator a
      result, `...` is there, and the words behind a CLOSURE look like captures. */
  predicate Stricter(pt: Proto, pc: nat)
    requires pc < |pt.code|
  {
    var i := pt.code[pc];
    var op, b, c := Opcode(i), ArgB(i), ArgC(i);
    && op < 38 && ArgA(i) < pt.maxstacksize
    && (op in {OP_MOVE, OP_LOADNIL, OP_GETUPVAL, OP_SETUPVAL, OP_UNM, OP_NOT, OP_LEN, OP_RETURN, OP_VARARG} ==> c == 0)
    && (op == OP_TFORLOOP ==> b == 0) && (op == OP_CLOSE ==> b == 0 && c == 0)
    && (op == OP_TEST ==> b < pt.maxstacksize)
    && (op in {OP_EQ, OP_LT, OP_LE, OP_TEST, OP_TESTSET, OP_TFORLOOP} ==> pc + 1 < |pt.code| && Opcode(pt.code[pc + 1]) == OP_JMP)
    && (op == OP_CONCAT ==> b < c) && (op == OP_TFORLOOP ==> c >= 1)
    && (op == OP_TAILCALL && c > 1 ==> ArgA(i) + c - 2 < pt.maxstacksize)
    && (op == OP_VARARG ==> pt.isvararg && !pt.needsarg)
    && (op == OP_CLOSURE && ArgBx(i) < |pt.protos| ==>
          forall q :: pc < q <= pc + pt.protos[ArgBx(i)] && q < |pt.code| ==> Opcode(pt.code[q]) in {OP_GETUPVAL, OP_MOVE})
  }

  ghost predicate LawfulAt(pt: Proto, pc: int) {
    IsInstruction(pt, pc) ==>
      && OperandsExist(pt, pc) && StepsInside(pt, pc) && Stricter(pt, pc)
      && (LeavesOpen(pt.code[pc]) ==> pc + 1 < |pt.code| && Taken(pt.code[pc + 1]) == UpToTop)
  }

  ghost predicate Lawful(pt: Proto) {
    Limits(pt) && forall pc :: LawfulAt(pt, pc)
  }

  lemma LimitsAre(pt: Proto)
    ensures Limits(pt) <==> Precheck(pt)
  {
  }

  lemma OpenTaken(i: Instruction)
    ensures Taken(i) == UpToTop <==> CheckOpenOp(i)
  {
  }

  /** Whatever is accepted is lawful. */
  lemma AcceptedIsLawful(pt: Proto, pc: int)
    requires Accepts(pt)
    ensures LawfulAt(pt, pc)
  {
    hide Accepts, TouchesReg, TouchesConst, TouchesUpval, Steps;
    if IsInstruction(pt, pc) {
      OperandsInRange(pt, pc);
      AcceptedStricter(pt, pc);
      forall next | Steps(pt, pc, next)
        ensures IsInstruction(pt, next) || (Opcode(pt.code[pc]) == OP_LOADBOOL && ArgC(pt.code[pc]) >= 2)
      {
        StepStays(pt, pc, next);
      }
      AcceptedOpen(pt, pc);
    }
  }

  lemma AcceptedStricter(pt: Proto, pc: nat)
    requires Accepts(pt) && IsInstruction(pt, pc)
    ensures Stricter(pt, pc)
  {
    hide Opcode, ArgA, ArgB, ArgC, ArgBx, ArgSBx, IsCount, Precheck;
    assert CheckedAt(pt, pc);
    assert ModeOf(Opcode(pt.code[pc])) == OPMODES[Opcode(pt.code[pc])];
  }

  lemma AcceptedOpen(pt: Proto, pc: nat)
    requires Accepts(pt) && IsInstruction(pt, pc)
    ensures LeavesOpen(pt.code[pc]) ==> pc + 1 < |pt.code| && Taken(pt.code[pc + 1]) == UpToTop
  {
    hide Opcode, ArgA, ArgB, ArgC, ArgBx, ArgSBx, IsCount, Precheck, ModeOk;
    assert CheckedAt(pt, pc);
    if pc + 1 < |pt.code| { OpenTaken(pt.code[pc + 1]); }
  }

  /** Whatever is lawful is accepted. */
  lemma LawfulIsAccepted(pt: Proto, pc: int)
    requires Lawful(pt)
    ensures CheckedAt(pt, pc)
  {
    if IsInstruction(pt, pc) {
      assert LawfulAt(pt, pc);
      LawfulMode(pt, pc);
      LawfulOp(pt, pc);
    }
  }

  /** The operands by instruction. */
  lemma OperandBounds(pt: Proto, pc: nat)
    requires pc < |pt.code| && OperandsExist(pt, pc)
    ensures var (op, b, c) := (Opcode(pt.code[pc]), ArgB(pt.code[pc]), ArgC(pt.code[pc]));
            && (op in {OP_MOVE, OP_UNM, OP_NOT, OP_LEN, OP_TESTSET, OP_LOADNIL, OP_GETTABLE, OP_SELF} ==> b < pt.maxstacksize)
            && (op == OP_CONCAT && b < c ==> b < pt.maxstacksize && c < pt.maxstacksize)
            && (op in {OP_GETTABLE, OP_SELF} ==> CheckArgMode(pt, c, ArgK))
            && (op == OP_SETTABLE || OP_ADD <= op <= OP_POW || op in {OP_EQ, OP_LT, OP_LE} ==>
                  CheckArgMode(pt, b, ArgK) && CheckArgMode(pt, c, ArgK))
            && (op in {OP_LOADK, OP_GETGLOBAL, OP_SETGLOBAL} ==> ArgBx(pt.code[pc]) < |pt.strings|)
            && (op in {OP_GETGLOBAL, OP_SETGLOBAL} ==> pt.strings[ArgBx(pt.code[pc])])
            && (op == OP_GETUPVAL || op == OP_SETUPVAL ==> b < pt.nups)
  {
    hide Opcode, ArgA, ArgB, ArgC, ArgBx;
    var (b, c) := (ArgB(pt.code[pc]), ArgC(pt.code[pc]));
    assert TouchesReg(pt, pc, b) ==> b < pt.maxstacksize;
    assert TouchesReg(pt, pc, c) ==> c < pt.maxstacksize;
    assert TouchesConst(pt, pc, b - 256) ==> b - 256 < |pt.strings|;
    assert TouchesConst(pt, pc, c - 256) ==> c - 256 < |pt.strings|;
    assert TouchesConst(pt, pc, ArgBx(pt.code[pc])) ==> ArgBx(pt.code[pc]) < |pt.strings|;
    assert TouchesUpval(pt, pc, b) ==> b < pt.nups;
  }

  /** The ranges of registers that calls, returns, loops and lists use. */
  lemma RangeBounds(pt: Proto, pc: nat)
    requires pc < |pt.code| && OperandsExist(pt, pc)
    ensures var (op, a, b, c) := (Opcode(pt.code[pc]), ArgA(pt.code[pc]), ArgB(pt.code[pc]), ArgC(pt.code[pc]));
            && (op == OP_SELF ==> a + 1 < pt.maxstacksize)
            && (op == OP_TFORLOOP ==> a + 2 + c < pt.maxstacksize)
            && (op == OP_FORLOOP || op == OP_FORPREP ==> a + 3 < pt.maxstacksize)
            && ((op == OP_CALL || op == OP_TAILCALL) && b != 0 ==> a + b - 1 < pt.maxstacksize)
            && (op == OP_CALL && c > 1 ==> a + c - 2 < pt.maxstacksize)
            && ((op == OP_RETURN || op == OP_VARARG) && b > 1 ==> a + b - 2 < pt.maxstacksize)
            && (op == OP_SETLIST && b > 0 ==> a + b < pt.maxstacksize)
  {
    hide Opcode, ArgA, ArgB, ArgC, ArgBx, TouchesReg;
    LoopBounds(pt, pc);
    CallBounds(pt, pc);
  }

  lemma LoopBounds(pt: Proto, pc: nat)
    requires pc < |pt.code| && OperandsExist(pt, pc)
    ensures var (op, a, b, c) := (Opcode(pt.code[pc]), ArgA(pt.code[pc]), ArgB(pt.code[pc]), ArgC(pt.code[pc]));
            && (op == OP_SELF ==> a + 1 < pt.maxstacksize)
            && (op == OP_TFORLOOP ==> a + 2 + c < pt.maxstacksize)
            && (op == OP_FORLOOP || op == OP_FORPREP ==> a + 3 < pt.maxstacksize)
  {
    hide Opcode, ArgA, ArgB, ArgC, ArgBx;
    var (a, c) := (ArgA(pt.code[pc]), ArgC(pt.code[pc]));
    assert TouchesReg(pt, pc, a + 1) ==> a + 1 < pt.maxstacksize;
    assert TouchesReg(pt, pc, a + 2 + c) ==> a + 2 + c < pt.maxstacksize;
    assert TouchesReg(pt, pc, a + 3) ==> a + 3 < pt.maxstacksize;
  }

  lemma CallBounds(pt: Proto, pc: nat)
    requires pc < |pt.code| && OperandsExist(pt, pc)
    ensures var (op, a, b, c) := (Opcode(pt.code[pc]), ArgA(pt.code[pc]), ArgB(pt.code[pc]), ArgC(pt.code[pc]));
            && ((op == OP_CALL || op == OP_TAILCALL) && b != 0 ==> a + b - 1 < pt.maxstacksize)
            && (op == OP_CALL && c > 1 ==> a + c - 2 < pt.maxstacksize)
            && ((op == OP_RETURN || op == OP_VARARG) && b > 1 ==> a + b - 2 < pt.maxstacksize)
            && (op == OP_SETLIST && b > 0 ==> a + b < pt.maxstacksize)
  {
    hide Opcode, ArgA, ArgB, ArgC, ArgBx;
    var (a, b, c) := (ArgA(pt.code[pc]), ArgB(pt.code[pc]), ArgC(pt.code[pc]));
    assert TouchesReg(pt, pc, a + b - 1) ==> a + b - 1 < pt.maxstacksize;
    assert TouchesReg(pt, pc, a + c - 2) ==> a + c - 2 < pt.maxstacksize;
    assert TouchesReg(pt, pc, a + b - 2) ==> a + b - 2 < pt.maxstacksize;
    assert TouchesReg(pt, pc, a + b) ==> a + b < pt.maxstacksize;
  }

  lemma StepInside(pt: Proto, pc: nat, next: int)
    requires pc < |pt.code| && StepsInside(pt, pc) && Steps(pt, pc, next)
    ensures IsInstruction(pt, next) || (Opcode(pt.code[pc]) == OP_LOADBOOL && ArgC(pt.code[pc]) >= 2)
  {
  }

  lemma LawfulMode(pt: Proto, pc: nat)
    requires IsInstruction(pt, pc) && LawfulAt(pt, pc)
    ensures Opcode(pt.code[pc]) < NUM_OPCODES && ModeOk(pt, pc)
  {
    hide Opcode, ArgA, ArgB, ArgC, ArgBx, ArgSBx, IsCount, OperandsExist, StepsInside;
    OperandBounds(pt, pc);
    var op := Opcode(pt.code[pc]);
    assert ModeOf(op) == OPMODES[op];
    if op in {OP_JMP, OP_FORLOOP, OP_FORPREP} {
      StepInside(pt, pc, pc + 1 + ArgSBx(pt.code[pc]));
    }
    if op in {OP_EQ, OP_LT, OP_LE, OP_TEST, OP_TESTSET, OP_TFORLOOP} {
      StepInside(pt, pc, pc + 2);
    }
  }

  lemma LawfulOp(pt: Proto, pc: nat)
    requires IsInstruction(pt, pc) && LawfulAt(pt, pc)
    ensures OpOk(pt, pc)
  {
    hide Opcode, ArgA, ArgB, ArgC, ArgBx, ArgSBx, OperandsExist, StepsInside;
    OperandBounds(pt, pc);
    RangeBounds(pt, pc);
    LawfulClosure(pt, pc);
    var op := Opcode(pt.code[pc]);
    if op == OP_LOADBOOL && ArgC(pt.code[pc]) == 1 {
      StepInside(pt, pc, pc + 2);
      assert !IsCount(pt.code, pc + 1);
    }
    if op == OP_SETLIST && ArgC(pt.code[pc]) == 0 {
      StepInside(pt, pc, pc + 2);
    }
    if LeavesOpen(pt.code[pc]) {
      OpenTaken(pt.code[pc + 1]);
    }
  }

  lemma LawfulClosure(pt: Proto, pc: nat)
    requires IsInstruction(pt, pc) && LawfulAt(pt, pc)
    ensures Opcode(pt.code[pc]) == OP_CLOSURE ==>
              ArgBx(pt.code[pc]) < |pt.protos| && pc + pt.protos[ArgBx(pt.code[pc])] < |pt.code|
  {
    hide TouchesReg, TouchesConst, TouchesUpval, StepsInside;
    if Opcode(pt.code[pc]) == OP_CLOSURE {
      StepInside(pt, pc, pc + 1 + pt.protos[ArgBx(pt.code[pc])]);
    }
  }

  /** The checker accepts exactly the lawful prototypes. */
  lemma AcceptsExactly(pt: Proto)
    ensures Accepts(pt) <==> Lawful(pt)
  {
    hide Precheck, Limits;
    LimitsAre(pt);
    if Accepts(pt) {
      forall pc ensures LawfulAt(pt, pc) { AcceptedIsLawful(pt, pc); }
    }
    if Lawful(pt) {
      forall pc ensures CheckedAt(pt, pc) { LawfulIsAccepted(pt, pc); }
    }
  }
}
