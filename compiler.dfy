/// The compiler as the source runs it: one `Ctx` object whose fields the
/// context helpers and the `gen` methods update in place. Every method is
/// proved to do exactly what the corresponding function of `Context` or
/// `Generate` computes, so the properties proved about those functions hold
/// of the object.
module Compiler {
  import opened Types
  import opened Decimal
  import opened Tables
  import opened Ast
  import opened Context
  import opened Unescape
  import opened Typing
  import opened Generate

  /// A method that stops the compiler on an error ran as the function says:
  /// it failed with the function's error, or it succeeded and left the
  /// object in the function's final context.
  ghost predicate Agrees(r: Result<()>, spec: Result<CtxState>, now: CtxState) {
    match spec
    case Ok(t) => r == Ok(()) && now == t
    case Err(e) => r == Err(e)
  }

  /// The same for a method that also returns a value.
  ghost predicate AgreesValue<T>(r: Result<T>, spec: Result<(T, CtxState)>, now: CtxState) {
    match spec
    case Ok(p) => r == Ok(p.0) && now == p.1
    case Err(e) => r == Err(e)
  }

  /// `pushHelper`: appends each line to the segment, indented unless it is a
  /// label, and ends it with a newline.
  method PushHelper(segment: string, lines: seq<string>) returns (out: string)
    ensures out == segment + Rendered(lines)
  {
    out := segment;
    for i := 0 to |lines|
      invariant out == segment + Rendered(lines[..i])
    {
      var line := lines[i];
      PushLineText(segment, lines, i, out);
      if |line| == 0 || line[|line| - 1] != ':' {
        out := out + "  ";
      }
      out := out + line;
      out := out + "\n";
    }
    assert lines[..|lines|] == lines;
  }

  /// The cells of a suffix of the decoded text: the cell of its first byte,
  /// then the cells of the rest.
  lemma DataCellsFrom(raw: string, i: nat)
    requires i < |raw|
    ensures DataCells(raw[i..]) == ["data " + IntToString(CellValue(raw[i])) + " * 1"] + DataCells(raw[i + 1..])
  {
    assert raw[i..][0] == raw[i];
    assert raw[i..][1..] == raw[i + 1..];
  }

  /// One step of `pushHelper`: the line, indented unless it is a label, and
  /// a newline extend the rendering of the lines before it.
  lemma PushLineText(segment: string, lines: seq<string>, i: nat, out: string)
    requires i < |lines| && out == segment + Rendered(lines[..i])
    ensures var line := lines[i];
      (if |line| == 0 || line[|line| - 1] != ':' then out + "  " + line + "\n" else out + line + "\n")
        == segment + Rendered(lines[..i + 1])
  {
    RenderedSnoc(lines, i);
    ConcatAssoc(segment, Rendered(lines[..i]), FormatLine(lines[i]));
  }

  class Ctx {
    /// The runtime preamble and the first address below the stack.
    const prefix: string := PREFIX
    const stackBegin: int := STACK_BEGIN

    var strings: string
    var res: string
    var usedReg: int
    var vars: seq<Frame>
    var breakable: seq<string>
    var continuable: seq<string>
    var id: nat

    /// The fields that change, as one value.
    function State(): CtxState
      reads this
    {
      CtxState(strings, res, usedReg, vars, breakable, continuable, id)
    }

    constructor ()
      ensures State() == Initial()
    {
      strings := STRINGS_HEADER;
      res := MAIN_HEADER;
      usedReg := 0;
      vars := [Frame(STACK_BEGIN, map[])];
      breakable := [];
      continuable := [];
      id := 0;
    }

    /// `reset`: back to a fresh context.
    method Reset()
      modifies this
      ensures State() == Initial()
    {
      strings := STRINGS_HEADER;
      res := MAIN_HEADER;
      usedReg := 0;
      vars := [Frame(stackBegin, map[])];
      breakable := [];
      continuable := [];
      id := 0;
    }

    /// `getLabel`: a fresh label, numbered by the bumped counter.
    method GetLabel(prefix: string) returns (lbl: string)
      modifies this
      ensures (lbl, State()) == Context.GetLabel(old(State()), prefix)
    {
      id := id + 1;
      lbl := prefix + NatToString(id);
    }

    /// `pushStrings`: rendered lines appended to the data section.
    method PushStrings(lines: seq<string>)
      modifies this
      ensures State() == Context.PushStrings(old(State()), lines)
    {
      strings := PushHelper(strings, lines);
    }

    /// `pushCommands`: rendered lines appended to the text section.
    method PushCommands(lines: seq<string>)
      modifies this
      ensures State() == Context.PushCommands(old(State()), lines)
    {
      res := PushHelper(res, lines);
    }

    /// `enterScope`: a new innermost scope starting at the current offset.
    method EnterScope()
      requires |vars| > 0
      modifies this
      ensures State() == Context.EnterScope(old(State()))
    {
      var cursor := vars[|vars| - 1].cursor;
      vars := vars + [Frame(0, map[])];
      vars := vars[|vars| - 1 := Frame(cursor, vars[|vars| - 1].bindings)];
    }

    /// `exitScope`: drops the innermost scope, never the outermost one.
    method ExitScope()
      modifies this
      ensures State() == Context.ExitScope(old(State()))
    {
      if |vars| > 1 {
        vars := vars[..|vars| - 1];
      }
    }

    /// `enterBreakable`: a fresh `break_` label, pushed as the innermost break target.
    method EnterBreakable() returns (lbl: string)
      modifies this
      ensures (lbl, State()) == Context.EnterBreakable(old(State()))
    {
      lbl := GetLabel("break_");
      breakable := breakable + [lbl];
    }

    /// `exitBreakable`: pops the innermost break target.
    method ExitBreakable() returns (r: Result<()>)
      modifies this
      ensures Agrees(r, Context.ExitBreakable(old(State())), State())
    {
      if |breakable| > 0 {
        breakable := breakable[..|breakable| - 1];
        r := Ok(());
      } else {
        r := Fail(NameError, "Unreachable exitBreakable");
      }
    }

    /// `enterContinuable`: a fresh `contnue_` label, pushed as the innermost continue target.
    method EnterContinuable() returns (lbl: string)
      modifies this
      ensures (lbl, State()) == Context.EnterContinuable(old(State()))
    {
      lbl := GetLabel("contnue_");
      continuable := continuable + [lbl];
    }

    /// The guard tests the scope stack, as in the source.
    method ExitContinuable() returns (r: Result<()>)
      modifies this
      ensures Agrees(r, Context.ExitContinuable(old(State())), State())
    {
      if |vars| > 0 {
        if |continuable| > 0 {
          continuable := continuable[..|continuable| - 1];
          r := Ok(());
        } else {
          r := Fail(Crash, "pop_back on an empty continuable stack");
        }
      } else {
        r := Fail(NameError, "Unreachable exitContinuable");
      }
    }

    /// `useReg`: the next register.
    method UseReg() returns (reg: int)
      modifies this
      ensures (reg, State()) == Context.UseReg(old(State()))
    {
      usedReg := usedReg + 1;
      reg := usedReg;
    }

    /// `dropReg`: releases the last register.
    method DropReg()
      modifies this
      ensures State() == Context.DropReg(old(State()))
    {
      usedReg := usedReg - 1;
    }

    /// `hasVar`: searches the frames from the innermost out.
    method HasVar(name: string) returns (found: bool)
      ensures found == Context.HasVar(vars, name)
    {
      var i := |vars|;
      assert vars[..i] == vars;
      while i > 0
        invariant 0 <= i <= |vars|
        invariant Context.HasVar(vars, name) == Context.HasVar(vars[..i], name)
      {
        assert vars[..i][..i - 1] == vars[..i - 1];
        if name in vars[i - 1].bindings {
          return true;
        }
        i := i - 1;
      }
      return false;
    }

    /// `getVar`: the binding of the innermost frame that has the name.
    method GetVar(name: string) returns (r: Result<VariableInfo>)
      ensures r == Context.GetVar(vars, name)
    {
      var i := |vars|;
      assert vars[..i] == vars;
      while i > 0
        invariant 0 <= i <= |vars|
        invariant Context.GetVar(vars, name) == Context.GetVar(vars[..i], name)
      {
        assert vars[..i][..i - 1] == vars[..i - 1];
        if name in vars[i - 1].bindings {
          return Ok(vars[i - 1].bindings[name]);
        }
        i := i - 1;
      }
      return Fail(NameError, "Cannot find variable '" + name + "' in this scope");
    }

    /// `createVar`: binds a name in the innermost scope, below the current offset.
    method CreateVar(name: string, t: Type) returns (r: Result<VariableInfo>)
      requires |vars| > 0
      modifies this
      ensures AgreesValue(r, Context.CreateVar(old(State()), name, t), State())
    {
      var k := |vars| - 1;
      if name in vars[k].bindings {
        return Fail(NameError, "Variable '" + name + "' already exists in this scope");
      }
      var size := TypeSize(t);
      if size.Err? {
        return Err(size.error);
      }
      var cursor := vars[k].cursor - size.value;
      var info := VariableInfo(t, cursor);
      vars := vars[k := Frame(cursor, vars[k].bindings[name := info])];
      assert vars == old(vars)[..k] + [vars[k]];
      return Ok(info);
    }
    // -------------------------------------------------------------------
    // Code generation: each `gen` method fails with the error the function
    // gives, or leaves the context the function computes.

    method Gen(n: Node) returns (r: Result<()>)
      requires |vars| > 0
      modifies this
      ensures Agrees(r, Generate.Gen(n, old(State())), State())
      decreases n, 3
    {
      assert Generate.Gen(n, State()) == GenNode(n, State());
      match n
      case Number(v) =>
        GenNumber(v);
        r := Ok(());
      case Str(text) =>
        GenString(text);
        r := Ok(());
      case Variable(name) => r := GenVariable(name);
      case Binary(op, left, right) => r := GenBinary(op, left, right);
      case Unary(op, right) => r := GenUnary(op, right);
      case Macro(name, arg) => r := GenMacro(name, arg);
      case Assign(name, e) => r := GenAssign(name, e);
      case VarDecl(name, t, e) => r := GenVarDecl(name, t, e);
      case If(c, t, e) => r := GenIf(c, t, e);
      case Block(ss) => r := GenBlock(ss);
      case Loop(c, b, init, after) => r := GenLoop(c, b, init, after);
      case Break => r := GenBreak();
      case Continue => r := GenContinue();
    }

    /// `NumberNode::gen`.
    method GenNumber(v: i32)
      modifies this
      ensures State() == Generate.GenNumber(v, old(State()))
    {
      var reg := UseReg();
      PushCommands(["li " + Reg(reg) + ", " + IntToString(v as int)]);
    }

    /// The literal's bytes go to the strings segment one cell at a time.
    method GenString(text: string)
      modifies this
      ensures State() == Generate.GenString(text, old(State()))
    {
      var reg := UseReg();
      var lbl := GetLabel("str_");
      ghost var s2 := State();
      var raw := Unescape.Unescape(text);
      var header := ["# `" + text + "`", lbl + ":", "data " + IntToString(|raw|) + " * 1"];
      PushStrings(header);
      ghost var s3 := State();
      assert raw[0..] == raw;
      for i := 0 to |raw|
        invariant Context.PushStrings(State(), DataCells(raw[i..])) == Context.PushStrings(s3, DataCells(raw))
      {
        var cell := "data " + IntToString(CellValue(raw[i])) + " * 1";
        DataCellsFrom(raw, i);
        PushStringsTwice(State(), [cell], DataCells(raw[i + 1..]));
        PushStrings([cell]);
      }
      assert raw[|raw|..] == [];
      assert Context.PushStrings(State(), []) == State();
      PushStringsTwice(s2, header, DataCells(raw));
      assert StringData(text, lbl) == header + DataCells(raw);
      PushCommands(["li " + Reg(reg) + ", " + lbl]);
    }

    /// `VariableNode::gen`.
    method GenVariable(name: string) returns (r: Result<()>)
      modifies this
      ensures Agrees(r, Generate.GenVariable(name, old(State())), State())
    {
      var info :- GetVar(name);
      var reg := UseReg();
      PushCommands(["lw " + Reg(reg) + ", x0, " + IntToString(info.offset)]);
      r := Ok(());
    }

    /// `BinaryNode::gen`: type checks both operands, then generates the left one.
    method GenBinary(op: string, left: Node, right: Node) returns (r: Result<()>)
      requires |vars| > 0
      modifies this
      ensures Agrees(r, Generate.GenBinary(op, left, right, old(State())), State())
      decreases Binary(op, left, right), 0
    {
      ghost var s := State();
      var lt :- TypeCheck(left, vars);
      var rt :- TypeCheck(right, vars);
      var _ :- Gen(left);
      ghost var s1 := State();
      assert Generate.Gen(left, s) == Ok(s1);
      r := GenRightOperand(op, right, lt, rt);
    }

    /// The right operand of `BinaryNode::gen`, then the operation.
    method GenRightOperand(op: string, right: Node, lt: Type, rt: Type) returns (r: Result<()>)
      requires |vars| > 0
      modifies this
      ensures Agrees(r, Generate.GenRightOperand(op, right, lt, rt, old(State())), State())
      decreases right, 4
    {
      ghost var s := State();
      var _ :- Gen(right);
      ghost var s2 := State();
      assert Generate.Gen(right, s) == Ok(s2);
      r := BinaryOp(op, lt, rt);
    }

    /// The operation of `BinaryNode::gen` on the two operand registers.
    method BinaryOp(op: string, lt: Type, rt: Type) returns (r: Result<()>)
      modifies this
      ensures Agrees(r, Generate.BinaryOp(op, lt, rt, old(State())), State())
    {
      DropReg();
      var a, b := usedReg, usedReg + 1;
      if lt == I32 && rt == I32 && IntOp(op).Some? {
        PushCommands([BinaryInstr(op, a, a, b)]);
        r := Ok(());
      } else if lt == STR && rt == I32 && op == "[]" {
        PushCommands(["add " + Reg(a) + ", " + Reg(a) + ", " + Reg(b), "lw " + Reg(a) + ", " + Reg(a) + ", 1"]);
        r := Ok(());
      } else {
        r := Fail(TypeError, "Invalid types: " + TypeName(lt) + " and " + TypeName(rt));
      }
    }

    /// `UnaryNode::gen`.
    method GenUnary(op: string, right: Node) returns (r: Result<()>)
      requires |vars| > 0
      modifies this
      ensures Agrees(r, Generate.GenUnary(op, right, old(State())), State())
      decreases Unary(op, right), 0
    {
      var _ :- Gen(right);
      var _ :- TypeCheck(right, vars);
      var x := Reg(usedReg);
      if op == "-" {
        PushCommands(["sub " + x + ", x0, " + x]);
      } else {
        PushCommands(["seq " + x + ", x0, " + x]);
      }
      r := Ok(());
    }

    /// `MacroNode::gen`: type checks the call and generates the argument.
    method GenMacro(name: string, arg: Node) returns (r: Result<()>)
      requires |vars| > 0
      modifies this
      ensures Agrees(r, Generate.GenMacro(name, arg, old(State())), State())
      decreases Macro(name, arg), 0
    {
      var _ :- TypeCheck(Macro(name, arg), vars);
      var _ :- Gen(arg);
      DropReg();
      r := MacroCall(name, arg);
    }

    /// The call of `MacroNode::gen`, once the argument's register is released.
    method MacroCall(name: string, arg: Node) returns (r: Result<()>)
      modifies this
      ensures Agrees(r, Generate.MacroCall(name, arg, old(State())), State())
    {
      var t :- TypeCheck(arg, vars);
      if !(name in MACROS && t in MACROS[name]) {
        return Fail(Crash, "macro table lookup out of range");
      }
      var entry := MACROS[name][t];
      PushCommands(["jal x31, " + entry.routine]);
      if entry.result != UNKNOWN {
        var _ := UseReg();
      }
      r := Ok(());
    }

    /// `AssignNode::gen`.
    method GenAssign(name: string, e: Node) returns (r: Result<()>)
      requires |vars| > 0
      modifies this
      ensures Agrees(r, Generate.GenAssign(name, e, old(State())), State())
      decreases Assign(name, e), 0
    {
      var _ :- TypeCheck(Assign(name, e), vars);
      var found := HasVar(name);
      if !found {
        return Fail(NameError, "Undefined variable '" + name + "'");
      }
      var info :- GetVar(name);
      var _ :- Gen(e);
      PushCommands(["sw x0, " + IntToString(info.offset) + ", " + Reg(usedReg)]);
      DropReg();
      r := Ok(());
    }

    /// The initializer is generated first, then the variable is created.
    method GenVarDecl(name: string, declared: Type, e: Node) returns (r: Result<()>)
      requires |vars| > 0
      modifies this
      ensures Agrees(r, Generate.GenVarDecl(name, declared, e, old(State())), State())
      decreases VarDecl(name, declared, e), 0
    {
      var _ :- TypeCheck(VarDecl(name, declared, e), vars);
      var _ :- Gen(e);
      var t := declared;
      if declared == UNKNOWN {
        t :- TypeCheck(e, vars);
      }
      var info :- CreateVar(name, t);
      PushCommands(["sw x0, " + IntToString(info.offset) + ", " + Reg(usedReg)]);
      DropReg();
      r := Ok(());
    }

    /// `IfNode::gen`.
    method GenIf(c: Node, t: Node, e: Option<Node>) returns (r: Result<()>)
      requires |vars| > 0
      modifies this
      ensures Agrees(r, Generate.GenIf(c, t, e, old(State())), State())
      decreases If(c, t, e), 1
    {
      var _ :- TypeCheck(If(c, t, e), vars);
      var _ :- Gen(c);
      var elseLabel := GetLabel("else_");
      var ifEnd := GetLabel("if_end_");
      DropReg();
      r := GenIfBranches(c, t, e, elseLabel, ifEnd);
    }

    /// The branch tests `x1`, whatever register holds the condition.
    method GenIfBranches(c: Node, t: Node, e: Option<Node>, elseLabel: string, ifEnd: string) returns (r: Result<()>)
      requires |vars| > 0
      modifies this
      ensures Agrees(r, Generate.GenIfBranches(c, t, e, elseLabel, ifEnd, old(State())), State())
      decreases If(c, t, e), 0
    {
      var _ :- GenBetween(["bne x1, x0, 1", "jal x0, " + elseLabel], t, ["jal x0, " + ifEnd, elseLabel + ":"]);
      r := GenOptionalThen(e, [ifEnd + ":"]);
    }

    /// A child between two groups of lines.
    method GenBetween(pre: seq<string>, n: Node, post: seq<string>) returns (r: Result<()>)
      requires |vars| > 0
      modifies this
      ensures Agrees(r, Generate.GenBetween(pre, n, post, old(State())), State())
      decreases n, 4
    {
      PushCommands(pre);
      var _ :- Gen(n);
      PushCommands(post);
      r := Ok(());
    }

    /// An optional child followed by fixed lines.
    method GenOptionalThen(o: Option<Node>, post: seq<string>) returns (r: Result<()>)
      requires |vars| > 0
      modifies this
      ensures Agrees(r, Generate.GenOptionalThen(o, post, old(State())), State())
      decreases o, 1
    {
      var _ :- GenOptional(o);
      PushCommands(post);
      r := Ok(());
    }

    /// An absent child generates nothing.
    method GenOptional(o: Option<Node>) returns (r: Result<()>)
      requires |vars| > 0
      modifies this
      ensures Agrees(r, Generate.GenOptional(o, old(State())), State())
      decreases o, 0
    {
      if o.Some? {
        r := Gen(o.value);
      } else {
        r := Ok(());
      }
    }

    /// The statements in order, inside a scope of their own.
    method GenBlock(ss: seq<Node>) returns (r: Result<()>)
      requires |vars| > 0
      modifies this
      ensures Agrees(r, Generate.GenBlock(ss, old(State())), State())
      decreases Block(ss), 0
    {
      EnterScope();
      ghost var s1 := State();
      for i := 0 to |ss|
        invariant |vars| == |s1.vars|
        invariant GenSeq(ss, s1) == GenSeq(ss[i..], State())
      {
        assert ss[i..][0] == ss[i] && ss[i..][1..] == ss[i + 1..];
        var _ :- Gen(ss[i]);
      }
      ExitScope();
      r := Ok(());
    }

    /// `LoopNode::gen`: the initializer runs in a scope of its own.
    method GenLoop(c: Node, b: Node, init: Option<Node>, after: Option<Node>) returns (r: Result<()>)
      requires |vars| > 0
      modifies this
      ensures Agrees(r, Generate.GenLoop(c, b, init, after, old(State())), State())
      decreases Loop(c, b, init, after), 2
    {
      EnterScope();
      var _ :- GenOptional(init);
      var _ :- TypeCheck(Loop(c, b, init, after), vars);
      var _ :- GenLoopFrame(c, b, init, after);
      ExitScope();
      r := Ok(());
    }

    /// The loop inside its break and continue targets.
    method GenLoopFrame(c: Node, b: Node, init: Option<Node>, after: Option<Node>) returns (r: Result<()>)
      requires |vars| > 0
      modifies this
      ensures Agrees(r, Generate.GenLoopFrame(c, b, init, after, old(State())), State())
      decreases Loop(c, b, init, after), 1
    {
      var breakLabel := EnterBreakable();
      var continueLabel := EnterContinuable();
      var _ :- GenLoopBody(c, b, init, after, breakLabel, continueLabel);
      var _ :- ExitBreakable();
      r := ExitContinuable();
    }

    /// From the continue label (before the condition) to the break label.
    method GenLoopBody(c: Node, b: Node, init: Option<Node>, after: Option<Node>,
                       breakLabel: string, continueLabel: string) returns (r: Result<()>)
      requires |vars| > 0
      modifies this
      ensures Agrees(r, Generate.GenLoopBody(c, b, init, after, breakLabel, continueLabel, old(State())), State())
      decreases Loop(c, b, init, after), 0
    {
      var _ :- GenLoopTest(c, breakLabel, continueLabel);
      var _ :- Gen(b);
      r := GenOptionalThen(after, ["jal x0, " + continueLabel, breakLabel + ":"]);
    }

    /// The loop test: the continue label, the condition, then the exit to the break label, guarded by `x1`.
    method GenLoopTest(c: Node, breakLabel: string, continueLabel: string) returns (r: Result<()>)
      requires |vars| > 0
      modifies this
      ensures Agrees(r, Generate.GenLoopTest(c, breakLabel, continueLabel, old(State())), State())
      decreases c, 4
    {
      PushCommands([continueLabel + ":"]);
      var _ :- Gen(c);
      DropReg();
      PushCommands(["bne x1, x0, 1", "jal x0, " + breakLabel]);
      r := Ok(());
    }

    /// `BreakNode::gen`.
    method GenBreak() returns (r: Result<()>)
      modifies this
      ensures Agrees(r, Generate.GenBreak(old(State())), State())
    {
      if |breakable| > 0 {
        PushCommands(["jal x0, " + breakable[|breakable| - 1]]);
        r := Ok(());
      } else {
        r := Fail(NameError, "Not in context to break");
      }
    }

    /// `ContinueNode::gen`.
    method GenContinue() returns (r: Result<()>)
      modifies this
      ensures Agrees(r, Generate.GenContinue(old(State())), State())
    {
      if |continuable| > 0 {
        PushCommands(["jal x0, " + continuable[|continuable| - 1]]);
        r := Ok(());
      } else {
        r := Fail(NameError, "Not in context to break");
      }
    }

    /// `compile`: starts from a fresh context, so the text depends on the
    /// program alone.
    method Compile(block: Node) returns (r: Result<string>)
      requires block.Block?
      modifies this
      ensures r == Generate.Compile(block)
    {
      Reset();
      var _ :- Gen(block);
      PushCommands(["ebreak"]);
      r := Ok(prefix + strings + res);
    }
  }
}
