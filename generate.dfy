/// The `gen` methods of the node classes as functions from one compilation
/// context to the next (or to the error that stops the compiler), and
/// `compile` on top of them.
module Generate {
  import opened Types
  import opened Decimal
  import opened Tables
  import opened Ast
  import opened Context
  import opened Unescape
  import opened Typing

  /// The name of virtual register `r`.
  function Reg(r: int): string {
    "x" + IntToString(r)
  }

  /// The value `static_cast<int>` gives a byte of the decoded text: `char`
  /// is signed, so bytes from 128 up read as negative numbers.
  function CellValue(c: char): (v: int)
    ensures -128 <= v < 128
    ensures (c as int) < 128 ==> v == c as int
  {
    var b := (c as int) % 256;
    if b >= 128 then b - 256 else b
  }

  /// One data cell per decoded byte, in order.
  function DataCells(raw: string): (cells: seq<string>)
    ensures |cells| == |raw|
    ensures forall i :: 0 <= i < |raw| ==> cells[i] == "data " + IntToString(CellValue(raw[i])) + " * 1"
  {
    if raw == [] then [] else ["data " + IntToString(CellValue(raw[0])) + " * 1"] + DataCells(raw[1..])
  }

  /// The strings-segment entry for a literal: a comment with the literal as
  /// written, its label, the length cell and the byte cells.
  function StringData(text: string, lbl: string): seq<string> {
    var raw := Unescaped(text);
    ["# `" + text + "`", lbl + ":", "data " + IntToString(|raw|) + " * 1"] + DataCells(raw)
  }

  /// The instruction for an integer operator; swapped operators exchange
  /// their operand registers.
  function BinaryInstr(op: string, dst: int, left: int, right: int): string
  {
    match IntOp(op)
    case Some((cmd, swap)) =>
      var (a, b) := if swap then (right, left) else (left, right);
      cmd + " " + Reg(dst) + ", " + Reg(a) + ", " + Reg(b)
    case None => ""
  }

  function Gen(n: Node, s: CtxState): (r: Result<CtxState>)
    requires |s.vars| > 0
    ensures r.Ok? ==> |r.value.vars| == |s.vars|
    decreases n, 4
  {
    GenNode(n, s)
  }

  function GenNode(n: Node, s: CtxState): (r: Result<CtxState>)
    requires |s.vars| > 0
    ensures r.Ok? ==> |r.value.vars| == |s.vars|
    decreases n, 3
  {
    match n
    case Number(v) => Ok(GenNumber(v, s))
    case Str(text) => Ok(GenString(text, s))
    case Variable(name) => GenVariable(name, s)
    case Binary(op, l, r) => GenBinary(op, l, r, s)
    case Unary(op, r) => GenUnary(op, r, s)
    case Macro(name, arg) => GenMacro(name, arg, s)
    case Assign(name, e) => GenAssign(name, e, s)
    case VarDecl(name, t, e) => GenVarDecl(name, t, e, s)
    case If(c, t, e) => GenIf(c, t, e, s)
    case Block(ss) => GenBlock(ss, s)
    case Loop(c, b, i, a) => GenLoop(c, b, i, a, s)
    case Break => GenBreak(s)
    case Continue => GenContinue(s)
  }

  function GenNumber(v: i32, s: CtxState): CtxState {
    var (reg, s1) := UseReg(s);
    PushCommands(s1, ["li " + Reg(reg) + ", " + IntToString(v as int)])
  }

  function GenString(text: string, s: CtxState): CtxState {
    var (reg, s1) := UseReg(s);
    var (lbl, s2) := GetLabel(s1, "str_");
    var s3 := PushStrings(s2, StringData(text, lbl));
    PushCommands(s3, ["li " + Reg(reg) + ", " + lbl])
  }

  function GenVariable(name: string, s: CtxState): Result<CtxState> {
    var info :- GetVar(s.vars, name);
    var (reg, s1) := UseReg(s);
    Ok(PushCommands(s1, ["lw " + Reg(reg) + ", x0, " + IntToString(info.offset)]))
  }

  /// Both operands are type checked first, then generated; the result goes to
  /// the left operand's register. The error here names the types only.
  function GenBinary(op: string, l: Node, r: Node, s: CtxState): (res: Result<CtxState>)
    requires |s.vars| > 0
    ensures res.Ok? ==> |res.value.vars| == |s.vars|
    decreases Binary(op, l, r), 0
  {
    var lt :- TypeCheck(l, s.vars);
    var rt :- TypeCheck(r, s.vars);
    var s1 :- Gen(l, s);
    GenRightOperand(op, r, lt, rt, s1)
  }

  /// The right operand, then the operation on the two registers.
  function GenRightOperand(op: string, r: Node, lt: Type, rt: Type, s: CtxState): (res: Result<CtxState>)
    requires |s.vars| > 0
    ensures res.Ok? ==> |res.value.vars| == |s.vars|
    decreases r, 5
  {
    var s2 :- Gen(r, s);
    BinaryOp(op, lt, rt, s2)
  }

  /// The operation itself, once both operands are in registers.
  function BinaryOp(op: string, lt: Type, rt: Type, s2: CtxState): (res: Result<CtxState>)
    ensures res.Ok? ==> res.value.vars == s2.vars
  {
    var s3 := DropReg(s2);
    var left, right := s3.usedReg, s3.usedReg + 1;
    if lt == I32 && rt == I32 && IntOp(op).Some? then
      Ok(PushCommands(s3, [BinaryInstr(op, s3.usedReg, left, right)]))
    else if lt == STR && rt == I32 && op == "[]" then
      Ok(PushCommands(s3, ["add " + Reg(left) + ", " + Reg(left) + ", " + Reg(right),
                           "lw " + Reg(left) + ", " + Reg(left) + ", 1"]))
    else Fail(TypeError, "Invalid types: " + TypeName(lt) + " and " + TypeName(rt))
  }

  /// The operand is generated before it is type checked, and a non-`i32`
  /// operand is not rejected here.
  function GenUnary(op: string, r: Node, s: CtxState): (res: Result<CtxState>)
    requires |s.vars| > 0
    ensures res.Ok? ==> |res.value.vars| == |s.vars|
    decreases Unary(op, r), 0
  {
    var s1 :- Gen(r, s);
    var _ :- TypeCheck(r, s1.vars);
    var x := Reg(s1.usedReg);
    Ok(PushCommands(s1, [(if op == "-" then "sub " else "seq ") + x + ", x0, " + x]))
  }

  /// A table lookup that fails after the checks passed is the source's
  /// uncaught `std::out_of_range`.
  function GenMacro(name: string, arg: Node, s: CtxState): (res: Result<CtxState>)
    requires |s.vars| > 0
    ensures res.Ok? ==> |res.value.vars| == |s.vars|
    decreases Macro(name, arg), 0
  {
    var _ :- TypeCheck(Macro(name, arg), s.vars);
    var s1 :- Gen(arg, s);
    MacroCall(name, arg, DropReg(s1))
  }

  /// The call itself, once the argument's register is released.
  function MacroCall(name: string, arg: Node, s: CtxState): (res: Result<CtxState>)
    ensures res.Ok? ==> res.value.vars == s.vars
  {
    var t :- TypeCheck(arg, s.vars);
    var entry :- if name in MACROS && t in MACROS[name] then Ok(MACROS[name][t])
                 else Fail(Crash, "macro table lookup out of range");
    var s3 := PushCommands(s, ["jal x31, " + entry.routine]);
    Ok(if entry.result != UNKNOWN then UseReg(s3).1 else s3)
  }

  function GenAssign(name: string, e: Node, s: CtxState): (res: Result<CtxState>)
    requires |s.vars| > 0
    ensures res.Ok? ==> |res.value.vars| == |s.vars|
    decreases Assign(name, e), 0
  {
    var _ :- TypeCheck(Assign(name, e), s.vars);
    if !HasVar(s.vars, name) then Fail(NameError, "Undefined variable '" + name + "'")
    else
      var info :- GetVar(s.vars, name);
      var s1 :- Gen(e, s);
      var s2 := PushCommands(s1, ["sw x0, " + IntToString(info.offset) + ", " + Reg(s1.usedReg)]);
      Ok(DropReg(s2))
  }

  /// The initializer is generated before the variable is created.
  function GenVarDecl(name: string, declared: Type, e: Node, s: CtxState): (res: Result<CtxState>)
    requires |s.vars| > 0
    ensures res.Ok? ==> |res.value.vars| == |s.vars|
    decreases VarDecl(name, declared, e), 0
  {
    var _ :- TypeCheck(VarDecl(name, declared, e), s.vars);
    var s1 :- Gen(e, s);
    var t :- if declared == UNKNOWN then TypeCheck(e, s1.vars) else Ok(declared);
    var created :- CreateVar(s1, name, t);
    var (info, s2) := created;
    var s3 := PushCommands(s2, ["sw x0, " + IntToString(info.offset) + ", " + Reg(s2.usedReg)]);
    Ok(DropReg(s3))
  }

  function GenIf(c: Node, t: Node, e: Option<Node>, s: CtxState): (res: Result<CtxState>)
    requires |s.vars| > 0
    ensures res.Ok? ==> |res.value.vars| == |s.vars|
    decreases If(c, t, e), 1
  {
    var _ :- TypeCheck(If(c, t, e), s.vars);
    var s1 :- Gen(c, s);
    var (elseLabel, s2) := GetLabel(s1, "else_");
    var (ifEnd, s3) := GetLabel(s2, "if_end_");
    GenIfBranches(c, t, e, elseLabel, ifEnd, DropReg(s3))
  }

  /// The code after the condition. The branch always tests `x1`, whatever
  /// register held the condition.
  function GenIfBranches(c: Node, t: Node, e: Option<Node>, elseLabel: string, ifEnd: string,
                         s: CtxState): (res: Result<CtxState>)
    requires |s.vars| > 0
    ensures res.Ok? ==> |res.value.vars| == |s.vars|
    decreases If(c, t, e), 0
  {
    var s3 :- GenBetween(["bne x1, x0, 1", "jal x0, " + elseLabel], t, ["jal x0, " + ifEnd, elseLabel + ":"], s);
    GenOptionalThen(e, [ifEnd + ":"], s3)
  }

  /// The lines `pre`, the code of `n`, then the lines `post`.
  function GenBetween(pre: seq<string>, n: Node, post: seq<string>, s: CtxState): (res: Result<CtxState>)
    requires |s.vars| > 0
    ensures res.Ok? ==> |res.value.vars| == |s.vars|
    decreases n, 5
  {
    var s1 := PushCommands(s, pre);
    var s2 :- Gen(n, s1);
    Ok(PushCommands(s2, post))
  }

  /// The code of an optional child, then the lines `post`.
  function GenOptionalThen(o: Option<Node>, post: seq<string>, s: CtxState): (res: Result<CtxState>)
    requires |s.vars| > 0
    ensures res.Ok? ==> |res.value.vars| == |s.vars|
    decreases o, 1
  {
    var s1 :- GenOptional(o, s);
    Ok(PushCommands(s1, post))
  }

  /// An absent child generates nothing.
  function GenOptional(o: Option<Node>, s: CtxState): (res: Result<CtxState>)
    requires |s.vars| > 0
    ensures res.Ok? ==> |res.value.vars| == |s.vars|
    ensures o.None? ==> res == Ok(s)
    decreases o, 0
  {
    match o
    case Some(x) => Gen(x, s)
    case None => Ok(s)
  }

  function GenBlock(ss: seq<Node>, s: CtxState): (res: Result<CtxState>)
    requires |s.vars| > 0
    ensures res.Ok? ==> |res.value.vars| == |s.vars|
    decreases Block(ss), 0
  {
    var s1 := EnterScope(s);
    var s2 :- GenSeq(ss, s1);
    Ok(ExitScope(s2))
  }

  /// The statements of a block, first to last.
  function GenSeq(ss: seq<Node>, s: CtxState): (res: Result<CtxState>)
    requires |s.vars| > 0
    ensures res.Ok? ==> |res.value.vars| == |s.vars|
    decreases ss, 0
  {
    if ss == [] then Ok(s)
    else
      var s1 :- Gen(ss[0], s);
      GenSeq(ss[1..], s1)
  }

  /// A loop gets its own scope, which also holds what `init` declares. The
  /// condition is checked after `init` is generated.
  function GenLoop(c: Node, b: Node, init: Option<Node>, after: Option<Node>, s: CtxState): (res: Result<CtxState>)
    requires |s.vars| > 0
    ensures res.Ok? ==> |res.value.vars| == |s.vars|
    decreases Loop(c, b, init, after), 2
  {
    var s1 := EnterScope(s);
    var s2 :- GenOptional(init, s1);
    var _ :- TypeCheck(Loop(c, b, init, after), s2.vars);
    var s7 :- GenLoopFrame(c, b, init, after, s2);
    Ok(ExitScope(s7))
  }

  /// The loop's labels are pushed on the break and continue stacks around its
  /// body, and popped after it.
  function GenLoopFrame(c: Node, b: Node, init: Option<Node>, after: Option<Node>, s: CtxState): (res: Result<CtxState>)
    requires |s.vars| > 0
    ensures res.Ok? ==> |res.value.vars| == |s.vars|
    decreases Loop(c, b, init, after), 1
  {
    var (breakLabel, s3) := EnterBreakable(s);
    var (continueLabel, s4) := EnterContinuable(s3);
    var s5 :- GenLoopBody(c, b, init, after, breakLabel, continueLabel, s4);
    var s6 :- ExitBreakable(s5);
    ExitContinuable(s6)
  }

  /// The code from the continue label to the break label. The continue label
  /// is placed before the condition, so a `continue` skips the post-step; the
  /// branch tests `x1`.
  function GenLoopBody(c: Node, b: Node, init: Option<Node>, after: Option<Node>,
                       breakLabel: string, continueLabel: string, s: CtxState): (res: Result<CtxState>)
    requires |s.vars| > 0
    ensures res.Ok? ==> |res.value.vars| == |s.vars|
    decreases Loop(c, b, init, after), 0
  {
    var s3 :- GenLoopTest(c, breakLabel, continueLabel, s);
    var s4 :- Gen(b, s3);
    GenOptionalThen(after, ["jal x0, " + continueLabel, breakLabel + ":"], s4)
  }

  /// The continue label, the condition, and the exit test on `x1`.
  function GenLoopTest(c: Node, breakLabel: string, continueLabel: string, s: CtxState): (res: Result<CtxState>)
    requires |s.vars| > 0
    ensures res.Ok? ==> |res.value.vars| == |s.vars|
    decreases c, 5
  {
    var s1 := PushCommands(s, [continueLabel + ":"]);
    var s2 :- Gen(c, s1);
    Ok(PushCommands(DropReg(s2), ["bne x1, x0, 1", "jal x0, " + breakLabel]))
  }

  function GenBreak(s: CtxState): Result<CtxState> {
    if |s.breakable| > 0 then Ok(PushCommands(s, ["jal x0, " + s.breakable[|s.breakable| - 1]]))
    else Fail(NameError, "Not in context to break")
  }

  /// The error message is the same as for `break`.
  function GenContinue(s: CtxState): Result<CtxState> {
    if |s.continuable| > 0 then Ok(PushCommands(s, ["jal x0, " + s.continuable[|s.continuable| - 1]]))
    else Fail(NameError, "Not in context to break")
  }

  /// The context after generating the program from a fresh context.
  function CompileState(block: Node): Result<CtxState> {
    Gen(block, Initial())
  }

  /// `compile`: generate the top-level block from a fresh context, finish
  /// with `ebreak`, and concatenate the three segments.
  function Compile(block: Node): Result<string>
    requires block.Block?
  {
    var s :- CompileState(block);
    var s1 := PushCommands(s, ["ebreak"]);
    Ok(PREFIX + s1.strings + s1.res)
  }
}
