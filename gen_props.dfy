/// Properties of the generator for particular node kinds: expressions always
/// generate once they type check, registers per node kind, the layout of the
/// emitted code, and the behaviour the source has by construction.
module GenProps {
  import opened Types
  import opened Decimal
  import opened Tables
  import opened Ast
  import opened Context
  import opened Unescape
  import opened Typing
  import opened Generate
  import opened GenEffect

  // ---------------------------------------------------------------------
  // Dispatch: `Gen` on a node of each kind is that kind's function.

  lemma GenOfStr(text: string, s: CtxState)
    requires |s.vars| > 0
    ensures Gen(Str(text), s) == Ok(GenString(text, s))
  {
    assert Gen(Str(text), s) == GenNode(Str(text), s);
  }

  lemma GenOfUnary(op: string, r: Node, s: CtxState)
    requires |s.vars| > 0
    ensures Gen(Unary(op, r), s) == GenUnary(op, r, s)
  {
    assert Gen(Unary(op, r), s) == GenNode(Unary(op, r), s);
  }

  lemma GenOfIf(c: Node, t: Node, e: Option<Node>, s: CtxState)
    requires |s.vars| > 0
    ensures Gen(If(c, t, e), s) == GenIf(c, t, e, s)
  {
    assert Gen(If(c, t, e), s) == GenNode(If(c, t, e), s);
  }

  lemma GenOfLoop(c: Node, b: Node, init: Option<Node>, after: Option<Node>, s: CtxState)
    requires |s.vars| > 0
    ensures Gen(Loop(c, b, init, after), s) == GenLoop(c, b, init, after, s)
  {
    assert Gen(Loop(c, b, init, after), s) == GenNode(Loop(c, b, init, after), s);
    assert GenNode(Loop(c, b, init, after), s) == GenLoop(c, b, init, after, s);
  }

  lemma GenOfVariable(x: string, s: CtxState)
    requires |s.vars| > 0
    ensures Gen(Variable(x), s) == GenVariable(x, s)
  {
    assert Gen(Variable(x), s) == GenNode(Variable(x), s);
  }

  lemma GenOfVarDecl(name: string, declared: Type, e: Node, s: CtxState)
    requires |s.vars| > 0
    ensures Gen(VarDecl(name, declared, e), s) == GenVarDecl(name, declared, e, s)
  {
    assert Gen(VarDecl(name, declared, e), s) == GenNode(VarDecl(name, declared, e), s);
  }

  lemma GenOfMacro(name: string, arg: Node, s: CtxState)
    requires |s.vars| > 0
    ensures Gen(Macro(name, arg), s) == GenMacro(name, arg, s)
  {
    assert Gen(Macro(name, arg), s) == GenNode(Macro(name, arg), s);
  }

  lemma GenOfAssign(name: string, e: Node, s: CtxState)
    requires |s.vars| > 0
    ensures Gen(Assign(name, e), s) == GenAssign(name, e, s)
  {
    assert Gen(Assign(name, e), s) == GenNode(Assign(name, e), s);
  }

  lemma GenOfBinary(op: string, l: Node, r: Node, s: CtxState)
    requires |s.vars| > 0
    ensures Gen(Binary(op, l, r), s) == GenBinary(op, l, r, s)
  {
    assert Gen(Binary(op, l, r), s) == GenNode(Binary(op, l, r), s);
  }

  // ---------------------------------------------------------------------
  // Expressions

  /// An expression that type checks also generates, and generating it leaves
  /// the scopes alone.
  lemma {:induction false} ExprGenTotal(n: Node, s: CtxState)
    requires |s.vars| > 0 && IsExpr(n) && TypeCheck(n, s.vars).Ok?
    ensures Gen(n, s).Ok? && Gen(n, s).value.vars == s.vars
    decreases n
  {
    match n
    case Binary(op, l, r) =>
      GenOfBinary(op, l, r, s);
      ExprGenTotal(l, s);
      ExprGenTotal(r, Gen(l, s).value);
    case Unary(op, r) =>
      GenOfUnary(op, r, s);
      ExprGenTotal(r, s);
    case Macro(name, arg) =>
      GenOfMacro(name, arg, s);
      ExprGenTotal(arg, s);
    case _ =>
  }

  /// The registers an expression takes: one for its value, none for a macro
  /// call that yields nothing.
  lemma {:induction false} ExprNet(n: Node, vars: seq<Frame>)
    requires IsExpr(n) && BindingsTyped(vars) && TypeCheck(n, vars).Ok?
    ensures Net(n) == if TypeCheck(n, vars).value == UNKNOWN then 0 else 1
    decreases n
  {
    ExprType(n, vars);
    match n
    case Binary(op, l, r) =>
      ExprNet(l, vars);
      ExprNet(r, vars);
    case Unary(op, r) =>
      ExprNet(r, vars);
    case Macro(name, arg) =>
      ExprNet(arg, vars);
    case _ =>
  }

  /// Reading a variable loads its cell (`lw`, addressed from `x0`) into a
  /// fresh register; nothing but the register counter and the code changes.
  lemma VariableLoad(x: string, s: CtxState)
    requires |s.vars| > 0 && GetVar(s.vars, x).Ok?
    ensures Gen(Variable(x), s)
      == Ok(s.(usedReg := s.usedReg + 1,
               res := s.res + Rendered(["lw " + Reg(s.usedReg + 1) + ", x0, " + IntToString(GetVar(s.vars, x).value.offset)])))
  {
    GenOfVariable(x, s);
    var (reg, s1) := UseReg(s);
    assert reg == s.usedReg + 1;
  }

  /// Literals, variables and operators each leave exactly one more register
  /// in use; a macro call one more only when its table entry yields a value
  /// (`len!`).
  lemma ExprRegisters(n: Node, s: CtxState)
    requires |s.vars| > 0 && IsExpr(n) && BindingsTyped(s.vars) && TypeCheck(n, s.vars).Ok?
    ensures Gen(n, s).Ok? && Gen(n, s).value.vars == s.vars
    ensures Gen(n, s).value.usedReg == s.usedReg + (if TypeCheck(n, s.vars).value == UNKNOWN then 0 else 1)
    ensures n.Macro? ==> (Gen(n, s).value.usedReg == s.usedReg + 1 <==> MacroYieldsValue(n.name))
  {
    ExprGenTotal(n, s);
    NodeEffect(n, s);
    ExprNet(n, s.vars);
    ExprType(n, s.vars);
  }

  /// The binding `getVar` finds has a value type when every binding has one.
  lemma GetVarTyped(vars: seq<Frame>, name: string)
    requires BindingsTyped(vars) && GetVar(vars, name).Ok?
    ensures GetVar(vars, name).value.ty != UNKNOWN
  {
    GetVarInnermost(vars, name);
  }

  /// An assignment of an expression takes and frees one register: it nets 0.
  lemma AssignRegisters(name: string, e: Node, s: CtxState)
    requires |s.vars| > 0 && IsExpr(e) && BindingsTyped(s.vars)
    requires Gen(Assign(name, e), s).Ok?
    ensures Gen(Assign(name, e), s).value.usedReg == s.usedReg
  {
    GenOfAssign(name, e, s);
    assert TypeCheck(Assign(name, e), s.vars).Ok?;
    GetVarTyped(s.vars, name);
    ExprNet(e, s.vars);
    NodeEffect(Assign(name, e), s);
  }

  /// A declaration with an expression initializer nets 0 registers.
  lemma DeclRegisters(name: string, declared: Type, e: Node, s: CtxState)
    requires |s.vars| > 0 && IsExpr(e) && BindingsTyped(s.vars)
    requires Gen(VarDecl(name, declared, e), s).Ok?
    ensures Gen(VarDecl(name, declared, e), s).value.usedReg == s.usedReg
  {
    DeclInitTyped(name, declared, e, s);
    ExprNet(e, s.vars);
    NodeEffect(VarDecl(name, declared, e), s);
  }

  /// A declaration that compiles has an initializer with a value type.
  lemma DeclInitTyped(name: string, declared: Type, e: Node, s: CtxState)
    requires |s.vars| > 0 && IsExpr(e) && Gen(VarDecl(name, declared, e), s).Ok?
    ensures TypeCheck(e, s.vars).Ok? && TypeCheck(e, s.vars).value != UNKNOWN
  {
    GenOfVarDecl(name, declared, e, s);
    assert TypeCheck(VarDecl(name, declared, e), s.vars).Ok?;
    if declared == UNKNOWN {
      ExprGenTotal(e, s);
      var s1 := Gen(e, s).value;
      CreateVarSpec(s1, name, TypeCheck(e, s1.vars).value);
    }
  }

  /// Declaring a variable keeps every binding typed: `createVar` only
  /// succeeds for a value type.
  lemma CreateVarKeepsTyped(s: CtxState, name: string, t: Type)
    requires |s.vars| > 0 && BindingsTyped(s.vars) && CreateVar(s, name, t).Ok?
    ensures BindingsTyped(CreateVar(s, name, t).value.1.vars)
  {
    CreateVarSpec(s, name, t);
    var s' := CreateVar(s, name, t).value.1;
    var k := |s.vars| - 1;
    forall i, x | 0 <= i < |s'.vars| && x in s'.vars[i].bindings
      ensures s'.vars[i].bindings[x].ty != UNKNOWN
    {
      if i < k {
        assert s'.vars[i] == s'.vars[..k][i] == s.vars[..k][i] == s.vars[i];
      }
    }
  }

  /// Entering and leaving scopes keeps every binding typed.
  lemma ScopesKeepTyped(s: CtxState)
    requires |s.vars| > 0 && BindingsTyped(s.vars)
    ensures BindingsTyped(EnterScope(s).vars) && BindingsTyped(ExitScope(s).vars)
  {
    var e := EnterScope(s).vars;
    forall i, x | 0 <= i < |e| && x in e[i].bindings ensures e[i].bindings[x].ty != UNKNOWN {
      assert i < |s.vars| && e[i] == s.vars[i];
    }
    var x := ExitScope(s).vars;
    forall i, y | 0 <= i < |x| && y in x[i].bindings ensures x[i].bindings[y].ty != UNKNOWN {
      assert x[i] == s.vars[i];
    }
  }

  // ---------------------------------------------------------------------
  // Binary and unary operators

  /// With two integer operands, an integer operator leaves its result in the
  /// left operand's register `usedReg + 1`, the right operand having used
  /// `usedReg + 2`; one register more is in use afterwards.
  lemma BinaryIntRegisters(op: string, l: Node, r: Node, s: CtxState)
    requires |s.vars| > 0 && IsExpr(l) && IsExpr(r) && BindingsTyped(s.vars)
    requires TypeCheck(l, s.vars) == Ok(I32) && TypeCheck(r, s.vars) == Ok(I32) && IntOp(op).Some?
    ensures Gen(l, s).Ok? && Gen(l, s).value.usedReg == s.usedReg + 1
    ensures Gen(r, Gen(l, s).value).Ok? && Gen(r, Gen(l, s).value).value.usedReg == s.usedReg + 2
    ensures var s2 := Gen(r, Gen(l, s).value).value;
      Gen(Binary(op, l, r), s) ==
        Ok(PushCommands(s2.(usedReg := s.usedReg + 1),
                        [BinaryInstr(op, s.usedReg + 1, s.usedReg + 1, s.usedReg + 2)]))
  {
    ExprRegisters(l, s);
    var s1 := Gen(l, s).value;
    ExprRegisters(r, s1);
    var s2 := Gen(r, s1).value;
    BinaryIntStep(op, l, r, s, s1, s2);
    var s3 := DropReg(s2);
    assert s3.usedReg == s.usedReg + 1 && s3.usedReg + 1 == s.usedReg + 2;
    assert s3 == s2.(usedReg := s.usedReg + 1);
  }

  /// An integer operation, once both operands are generated, as seen from `Gen`.
  lemma BinaryIntStep(op: string, l: Node, r: Node, s: CtxState, s1: CtxState, s2: CtxState)
    requires |s.vars| > 0 && Gen(l, s) == Ok(s1) && Gen(r, s1) == Ok(s2)
    requires TypeCheck(l, s.vars) == Ok(I32) && TypeCheck(r, s.vars) == Ok(I32) && IntOp(op).Some?
    ensures var s3 := DropReg(s2);
      Gen(Binary(op, l, r), s)
      == Ok(PushCommands(s3, [BinaryInstr(op, s3.usedReg, s3.usedReg, s3.usedReg + 1)]))
  {
    GenOfBinary(op, l, r, s);
    BinaryIntCode(op, l, r, s, s1, s2);
  }

  /// An integer operation, once both operands are generated, as seen from `GenBinary`.
  lemma BinaryIntCode(op: string, l: Node, r: Node, s: CtxState, s1: CtxState, s2: CtxState)
    requires |s.vars| > 0 && Gen(l, s) == Ok(s1) && Gen(r, s1) == Ok(s2)
    requires TypeCheck(l, s.vars) == Ok(I32) && TypeCheck(r, s.vars) == Ok(I32) && IntOp(op).Some?
    ensures var s3 := DropReg(s2);
      GenBinary(op, l, r, s) == Ok(PushCommands(s3, [BinaryInstr(op, s3.usedReg, s3.usedReg, s3.usedReg + 1)]))
  {
    BinaryUnfold(op, l, r, s, s1, s2, I32, I32);
  }

  /// Indexing a string: the character is loaded into the string's register.
  lemma StringIndexRegisters(l: Node, r: Node, s: CtxState)
    requires |s.vars| > 0 && IsExpr(l) && IsExpr(r) && BindingsTyped(s.vars)
    requires TypeCheck(l, s.vars) == Ok(STR) && TypeCheck(r, s.vars) == Ok(I32)
    ensures Gen(l, s).Ok? && Gen(l, s).value.usedReg == s.usedReg + 1
    ensures Gen(r, Gen(l, s).value).Ok? && Gen(r, Gen(l, s).value).value.usedReg == s.usedReg + 2
    ensures var s2 := Gen(r, Gen(l, s).value).value;
      var x, y := Reg(s.usedReg + 1), Reg(s.usedReg + 2);
      Gen(Binary("[]", l, r), s) ==
        Ok(PushCommands(s2.(usedReg := s.usedReg + 1), ["add " + x + ", " + x + ", " + y, "lw " + x + ", " + x + ", 1"]))
  {
    ExprRegisters(l, s);
    var s1 := Gen(l, s).value;
    ExprRegisters(r, s1);
    var s2 := Gen(r, s1).value;
    StringIndexStep(l, r, s, s1, s2);
    var s3 := DropReg(s2);
    assert s3.usedReg == s.usedReg + 1 && s3.usedReg + 1 == s.usedReg + 2;
    assert s3 == s2.(usedReg := s.usedReg + 1);
  }

  /// Indexing, once both operands are generated, as seen from `Gen`.
  lemma StringIndexStep(l: Node, r: Node, s: CtxState, s1: CtxState, s2: CtxState)
    requires |s.vars| > 0 && Gen(l, s) == Ok(s1) && Gen(r, s1) == Ok(s2)
    requires TypeCheck(l, s.vars) == Ok(STR) && TypeCheck(r, s.vars) == Ok(I32)
    ensures var s3 := DropReg(s2);
      var x, y := Reg(s3.usedReg), Reg(s3.usedReg + 1);
      Gen(Binary("[]", l, r), s)
      == Ok(PushCommands(s3, ["add " + x + ", " + x + ", " + y, "lw " + x + ", " + x + ", 1"]))
  {
    GenOfBinary("[]", l, r, s);
    StringIndexCode(l, r, s, s1, s2);
  }

  /// Indexing, once both operands are generated, as seen from `GenBinary`.
  lemma StringIndexCode(l: Node, r: Node, s: CtxState, s1: CtxState, s2: CtxState)
    requires |s.vars| > 0 && Gen(l, s) == Ok(s1) && Gen(r, s1) == Ok(s2)
    requires TypeCheck(l, s.vars) == Ok(STR) && TypeCheck(r, s.vars) == Ok(I32)
    ensures var s3 := DropReg(s2);
      var x, y := Reg(s3.usedReg), Reg(s3.usedReg + 1);
      GenBinary("[]", l, r, s)
      == Ok(PushCommands(s3, ["add " + x + ", " + x + ", " + y, "lw " + x + ", " + x + ", 1"]))
  {
    BinaryUnfold("[]", l, r, s, s1, s2, STR, I32);
    IndexOpCode(s2);
  }

  /// Given the operands' results, a binary expression comes down to the operation itself.
  lemma BinaryUnfold(op: string, l: Node, r: Node, s: CtxState, s1: CtxState, s2: CtxState, lt: Type, rt: Type)
    requires |s.vars| > 0 && Gen(l, s) == Ok(s1) && Gen(r, s1) == Ok(s2)
    requires TypeCheck(l, s.vars) == Ok(lt) && TypeCheck(r, s.vars) == Ok(rt)
    ensures GenBinary(op, l, r, s) == BinaryOp(op, lt, rt, s2)
  {
    assert GenRightOperand(op, r, lt, rt, s1) == BinaryOp(op, lt, rt, s2);
  }

  /// Indexing adds the index to the string's address and loads the byte.
  lemma IndexOpCode(s2: CtxState)
    ensures var s3 := DropReg(s2);
      var x, y := Reg(s3.usedReg), Reg(s3.usedReg + 1);
      BinaryOp("[]", STR, I32, s2)
      == Ok(PushCommands(s3, ["add " + x + ", " + x + ", " + y, "lw " + x + ", " + x + ", 1"]))
  {
    IndexIsNotIntOp();
  }

  /// `[]` is not an entry of the integer operation table.
  lemma IndexIsNotIntOp()
    ensures IntOp("[]").None?
  {
  }

  /// `<=` and `>` have no instruction of their own: they are `>=` and `<`
  /// with the operands exchanged.
  lemma ComparisonMirror(dst: int, a: int, b: int)
    ensures BinaryInstr("<=", dst, a, b) == BinaryInstr(">=", dst, b, a)
    ensures BinaryInstr(">", dst, a, b) == BinaryInstr("<", dst, b, a)
  {
    assert IntOp("<=") == Some(("sge", true));
    assert IntOp(">=") == Some(("sge", false));
    assert IntOp(">") == Some(("slt", true));
    assert IntOp("<") == Some(("slt", false));
  }

  /// Every operator of the table other than `<=` and `>` keeps its operands
  /// in order.
  lemma OperandOrderKept(op: string, dst: int, a: int, b: int)
    requires IntOp(op).Some? && op != "<=" && op != ">"
    ensures BinaryInstr(op, dst, a, b) == IntOp(op).value.0 + " " + Reg(dst) + ", " + Reg(a) + ", " + Reg(b)
  {
    assert !IntOp(op).value.1;
  }

  /// The operand of a unary operator is never rejected by the generator:
  /// negating a string compiles, although type checking the same node fails.
  lemma UnaryNoOperandCheck(op: string, text: string, s: CtxState)
    requires |s.vars| > 0
    ensures Gen(Unary(op, Str(text)), s).Ok?
    ensures TypeCheck(Unary(op, Str(text)), s.vars) == Fail(TypeError, "Unary '" + op + "' requires i32 operand")
  {
    UnaryOfStringCompiles(op, text, s);
    UnaryOfStringRejected(op, text, s.vars);
  }

  /// The generator accepts a unary operation on a string literal.
  lemma UnaryOfStringCompiles(op: string, text: string, s: CtxState)
    requires |s.vars| > 0
    ensures Gen(Unary(op, Str(text)), s).Ok?
  {
    GenOfUnary(op, Str(text), s);
    assert Gen(Str(text), s).Ok?;
  }

  /// Type checking rejects a unary operation on a string literal.
  lemma UnaryOfStringRejected(op: string, text: string, vars: seq<Frame>)
    ensures TypeCheck(Unary(op, Str(text)), vars) == Fail(TypeError, "Unary '" + op + "' requires i32 operand")
  {
    assert TypeCheck(Unary(op, Str(text)), vars) == CheckNode(Unary(op, Str(text)), vars);
  }

  // ---------------------------------------------------------------------
  // Variables

  /// The "Undefined variable" error of `AssignNode::gen` can never be
  /// reported: when the type check fails generation stops with its error, and
  /// when it succeeds the variable exists.
  lemma AssignUndefinedUnreachable(name: string, e: Node, s: CtxState)
    requires |s.vars| > 0
    ensures TypeCheck(Assign(name, e), s.vars).Err? ==>
      Gen(Assign(name, e), s) == Err(TypeCheck(Assign(name, e), s.vars).error)
    ensures TypeCheck(Assign(name, e), s.vars).Ok? ==> HasVar(s.vars, name)
  {
    GenOfAssign(name, e, s);
    if TypeCheck(Assign(name, e), s.vars).Ok? {
      AssignCheckFindsVariable(name, e, s.vars);
    }
  }

  /// The initializer is generated before the declaration, so `let x = x;`
  /// loads the outer `x` and then binds a new `x`, one cell below the cursor
  /// of the innermost scope.
  lemma DeclarationSeesOuterBinding(x: string, s: CtxState)
    requires |s.vars| > 0 && x !in Top(s.vars).bindings && HasVar(s.vars, x)
    requires GetVar(s.vars, x).Ok? && GetVar(s.vars, x).value.ty != UNKNOWN
    ensures Gen(VarDecl(x, UNKNOWN, Variable(x)), s).Ok?
    ensures
      var outer := GetVar(s.vars, x).value;
      var r := Gen(VarDecl(x, UNKNOWN, Variable(x)), s).value;
      var reg, cell := Reg(s.usedReg + 1), Top(s.vars).cursor - 1;
      && r.res == s.res + Rendered(["lw " + reg + ", x0, " + IntToString(outer.offset),
                                    "sw x0, " + IntToString(cell) + ", " + reg])
      && GetVar(r.vars, x) == Ok(VariableInfo(outer.ty, cell))
      && r.usedReg == s.usedReg
  {
    var outer := GetVar(s.vars, x).value;
    var reg, cell := Reg(s.usedReg + 1), Top(s.vars).cursor - 1;
    var load, store := "lw " + reg + ", x0, " + IntToString(outer.offset), "sw x0, " + IntToString(cell) + ", " + reg;
    var s2 := OuterDeclarationSteps(x, s);
    var r := DropReg(PushCommands(s2, [store]));
    assert r.res == s.res + Rendered([load, store]) by {
      PushCommandsTwice(s, [load], [store]);
      assert [load] + [store] == [load, store];
      assert r.res == PushCommands(PushCommands(s, [load]), [store]).res;
    }
  }

  /// The steps of `let x = x;`: the load of the outer `x`, then the new
  /// binding in the innermost scope.
  lemma OuterDeclarationSteps(x: string, s: CtxState) returns (s2: CtxState)
    requires |s.vars| > 0 && x !in Top(s.vars).bindings && HasVar(s.vars, x)
    requires GetVar(s.vars, x).Ok? && GetVar(s.vars, x).value.ty != UNKNOWN
    ensures
      var outer := GetVar(s.vars, x).value;
      var reg, cell := Reg(s.usedReg + 1), Top(s.vars).cursor - 1;
      && s2.res == s.res + Rendered(["lw " + reg + ", x0, " + IntToString(outer.offset)])
      && s2.usedReg == s.usedReg + 1
      && GetVar(s2.vars, x) == Ok(VariableInfo(outer.ty, cell))
      && Gen(VarDecl(x, UNKNOWN, Variable(x)), s)
         == Ok(DropReg(PushCommands(s2, ["sw x0, " + IntToString(cell) + ", " + reg])))
  {
    var outer := GetVar(s.vars, x).value;
    var reg, cell := Reg(s.usedReg + 1), Top(s.vars).cursor - 1;
    var load := "lw " + reg + ", x0, " + IntToString(outer.offset);
    var s1 := s.(usedReg := s.usedReg + 1, res := s.res + Rendered([load]));
    VariableLoad(x, s);
    var info := VariableInfo(outer.ty, cell);
    s2 := FreshBinding(s1, x, outer.ty);
    assert TypeCheck(Variable(x), s.vars) == Ok(outer.ty);
    VarDeclCode(x, Variable(x), s, s1, outer.ty, info, s2);
  }

  /// A name not yet bound in the innermost scope gets the cell just below its
  /// cursor; only the scope stack changes.
  lemma FreshBinding(s: CtxState, x: string, t: Type) returns (s2: CtxState)
    requires |s.vars| > 0 && x !in Top(s.vars).bindings && t != UNKNOWN
    ensures var info := VariableInfo(t, Top(s.vars).cursor - 1);
      && CreateVar(s, x, t) == Ok((info, s2))
      && s2.res == s.res && s2.usedReg == s.usedReg
      && GetVar(s2.vars, x) == Ok(info)
  {
    CreateVarSpec(s, x, t);
    s2 := CreateVar(s, x, t).value.1;
  }

  /// The code of a declaration without a type, once its initializer is
  /// generated: the store of the initializer's register into the new cell.
  lemma VarDeclCode(name: string, e: Node, s: CtxState, s1: CtxState, t: Type, info: VariableInfo, s2: CtxState)
    requires |s.vars| > 0 && TypeCheck(e, s.vars) == Ok(t) && Gen(e, s) == Ok(s1)
    requires TypeCheck(e, s1.vars) == Ok(t) && CreateVar(s1, name, t) == Ok((info, s2))
    ensures Gen(VarDecl(name, UNKNOWN, e), s)
      == Ok(DropReg(PushCommands(s2, ["sw x0, " + IntToString(info.offset) + ", " + Reg(s2.usedReg)])))
  {
    GenOfVarDecl(name, UNKNOWN, e, s);
    VarDeclUnfold(name, e, s, s1, t, info, s2);
  }

  lemma VarDeclUnfold(name: string, e: Node, s: CtxState, s1: CtxState, t: Type, info: VariableInfo, s2: CtxState)
    requires |s.vars| > 0 && TypeCheck(e, s.vars) == Ok(t) && Gen(e, s) == Ok(s1)
    requires TypeCheck(e, s1.vars) == Ok(t) && CreateVar(s1, name, t) == Ok((info, s2))
    ensures GenVarDecl(name, UNKNOWN, e, s)
      == Ok(DropReg(PushCommands(s2, ["sw x0, " + IntToString(info.offset) + ", " + Reg(s2.usedReg)])))
  {
    assert TypeCheck(VarDecl(name, UNKNOWN, e), s.vars) == Ok(t);
  }

  /// Sibling blocks reuse the same cells: the first block hands back exactly
  /// the scopes it started from, so the first declaration of the second block
  /// gets the cell the first declaration of the first block got.
  lemma SiblingBlocksReuseOffsets(first: seq<Node>, name1: string, name2: string, t: Type, s: CtxState)
    requires |s.vars| > 0 && Gen(Block(first), s).Ok? && t != UNKNOWN
    ensures var s1 := Gen(Block(first), s).value;
      && s1.vars == s.vars
      && CreateVar(EnterScope(s), name1, t).Ok? && CreateVar(EnterScope(s1), name2, t).Ok?
      && CreateVar(EnterScope(s1), name2, t).value.0.offset
         == CreateVar(EnterScope(s), name1, t).value.0.offset
         == Top(s.vars).cursor - 1
  {
    NodeEffect(Block(first), s);
    var s1 := Gen(Block(first), s).value;
    ScopeRoundTrip(s);
    ScopeRoundTrip(s1);
    CreateVarSpec(EnterScope(s), name1, t);
    CreateVarSpec(EnterScope(s1), name2, t);
  }

  // ---------------------------------------------------------------------
  // Strings

  /// The strings-segment entry of a literal: comment, label, a length cell
  /// holding the decoded length, then one cell per decoded byte.
  lemma StringDataLayout(text: string, lbl: string)
    ensures var d, raw := StringData(text, lbl), Unescaped(text);
      && |d| == 3 + |raw|
      && d[0] == "# `" + text + "`" && d[1] == lbl + ":"
      && d[2] == "data " + NatToString(|raw|) + " * 1"
      && forall i :: 0 <= i < |raw| ==> d[3 + i] == "data " + IntToString(CellValue(raw[i])) + " * 1"
  {
  }

  /// A string literal draws a fresh `str_` label, appends its data to the
  /// strings segment, takes exactly one register and emits one `li` of the
  /// label into it; the scopes and loop labels stay as they were.
  lemma StringLiteralEffect(text: string, s: CtxState)
    requires |s.vars| > 0
    ensures Gen(Str(text), s).Ok?
    ensures var r, lbl := Gen(Str(text), s).value, "str_" + NatToString(s.id + 1);
      && r.strings == s.strings + Rendered(StringData(text, lbl))
      && r.res == s.res + Rendered(["li " + Reg(s.usedReg + 1) + ", " + lbl])
      && r.usedReg == s.usedReg + 1 && r.id == s.id + 1
      && r.vars == s.vars && r.breakable == s.breakable && r.continuable == s.continuable
  {
    GenOfStr(text, s);
    StringCode(text, s);
  }

  lemma StringCode(text: string, s: CtxState)
    ensures var r, lbl := GenString(text, s), "str_" + NatToString(s.id + 1);
      && r.strings == s.strings + Rendered(StringData(text, lbl))
      && r.res == s.res + Rendered(["li " + Reg(s.usedReg + 1) + ", " + lbl])
      && r.usedReg == s.usedReg + 1 && r.id == s.id + 1
      && r.vars == s.vars && r.breakable == s.breakable && r.continuable == s.continuable
  {
    var (reg, s1) := UseReg(s);
    assert reg == s.usedReg + 1 && s1.id == s.id;
    assert GetLabel(s1, "str_").0 == "str_" + NatToString(s.id + 1);
  }

  // ---------------------------------------------------------------------
  // Statements and control flow

  /// Generating `a + b` is generating `a` and then `b` from where `a` left
  /// off: statements are emitted in the order they were added.
  lemma {:induction false} GenSeqAppend(a: seq<Node>, b: seq<Node>, s: CtxState)
    requires |s.vars| > 0
    ensures GenSeq(a + b, s) == (match GenSeq(a, s) case Ok(t) => GenSeq(b, t) case Err(e) => Err(e))
    decreases a
  {
    if a == [] {
      assert a + b == b;
    } else {
      assert (a + b)[0] == a[0];
      assert (a + b)[1..] == a[1..] + b;
      if Gen(a[0], s).Ok? {
        GenSeqAppend(a[1..], b, Gen(a[0], s).value);
      }
    }
  }

  /// Statements added as `a` and then `b` generate as `a` followed by `b`,
  /// and net the registers of `a` plus those of `b`.
  lemma SeqAppendNet(a: seq<Node>, b: seq<Node>, s: CtxState)
    requires |s.vars| > 0 && GenSeq(a + b, s).Ok?
    ensures GenSeq(a, s).Ok? && GenSeq(b, GenSeq(a, s).value).Ok?
    ensures GenSeq(a + b, s).value.usedReg == s.usedReg + NetSeq(a) + NetSeq(b)
  {
    GenSeqAppend(a, b, s);
    SeqEffect(a + b, s);
    NetSeqAppend(a, b);
  }

  /// `break` and `continue` jump to the innermost loop's label, and outside a
  /// loop both fail with the same name error.
  lemma BreakTarget(s: CtxState)
    requires |s.vars| > 0
    ensures Gen(Break, s).Ok? <==> |s.breakable| > 0
    ensures Gen(Break, s).Ok? ==>
      Gen(Break, s).value == s.(res := s.res + Rendered(["jal x0, " + s.breakable[|s.breakable| - 1]]))
    ensures Gen(Break, s).Err? ==> Gen(Break, s).error == CompileError(NameError, "Not in context to break")
  {
    assert Gen(Break, s) == GenBreak(s);
  }

  lemma ContinueTarget(s: CtxState)
    requires |s.vars| > 0
    ensures Gen(Continue, s).Ok? <==> |s.continuable| > 0
    ensures Gen(Continue, s).Ok? ==>
      Gen(Continue, s).value == s.(res := s.res + Rendered(["jal x0, " + s.continuable[|s.continuable| - 1]]))
    ensures Gen(Continue, s).Err? ==> Gen(Continue, s).error == CompileError(NameError, "Not in context to break")
  {
    assert Gen(Continue, s) == GenContinue(s);
  }

  /// `s.res` extended by `t.res`: the text generated between the two states.
  function Emitted(s: CtxState, t: CtxState): string
    requires s.res <= t.res
  {
    t.res[|s.res|..]
  }

  lemma EmittedSplit(s: CtxState, t: CtxState)
    requires s.res <= t.res
    ensures t.res == s.res + Emitted(s, t)
  {
  }

  /// The code of an `if`: the condition, a test of `x1` (not of the
  /// condition's register) that skips the jump to the else label, the then
  /// branch, a jump to the end, the else label, the else branch (nothing when
  /// there is none) and the end label. The two labels are fresh and distinct.
  lemma IfLayout(c: Node, t: Node, e: Option<Node>, s: CtxState)
      returns (k: nat, C: string, T: string, E: string, st: CtxState, se: CtxState)
    requires |s.vars| > 0 && Gen(If(c, t, e), s).Ok?
    ensures k >= s.id
    ensures Gen(c, s).Ok? && Gen(c, s).value.res == s.res + C
    ensures |st.vars| > 0 && Gen(t, st).Ok? && Gen(t, st).value.res == st.res + T
    ensures e.Some? ==> |se.vars| > 0 && Gen(e.value, se).Ok? && Gen(e.value, se).value.res == se.res + E
    ensures var el, ie := "else_" + NatToString(k + 1), "if_end_" + NatToString(k + 2);
      && el != ie
      && (e.None? ==> E == "")
      && Gen(If(c, t, e), s).value.res
         == s.res + C + Rendered(["bne x1, x0, 1", "jal x0, " + el]) + T
            + Rendered(["jal x0, " + ie, el + ":"]) + E + Rendered([ie + ":"])
  {
    GenOfIf(c, t, e, s);
    var s1 := Gen(c, s).value;
    NodeEffect(c, s);
    k := s1.id;
    var (el, s2) := GetLabel(s1, "else_");
    var (ie, s3) := GetLabel(s2, "if_end_");
    assert el == "else_" + NatToString(k + 1);
    assert ie == "if_end_" + NatToString(k + 2);
    GetLabelFresh(s1, "else_", s2, "if_end_");
    var s4 := DropReg(s3);
    assert GenIf(c, t, e, s) == GenIfBranches(c, t, e, el, ie, s4);
    EmittedSplit(s, s1);
    C := Emitted(s, s1);
    assert s4.res == s.res + C;
    T, E, st, se := IfBranchesLayout(c, t, e, el, ie, s4);
  }

  /// The code after an `if`'s condition, with the pieces it is made of.
  lemma IfBranchesLayout(c: Node, t: Node, e: Option<Node>, el: string, ie: string, s: CtxState)
      returns (T: string, E: string, st: CtxState, se: CtxState)
    requires |s.vars| > 0 && GenIfBranches(c, t, e, el, ie, s).Ok?
    ensures e.None? ==> E == ""
    ensures |st.vars| > 0 && Gen(t, st).Ok? && Gen(t, st).value.res == st.res + T
    ensures e.Some? ==> |se.vars| > 0 && Gen(e.value, se).Ok? && Gen(e.value, se).value.res == se.res + E
    ensures GenIfBranches(c, t, e, el, ie, s).value.res
         == s.res + Rendered(["bne x1, x0, 1", "jal x0, " + el]) + T
            + Rendered(["jal x0, " + ie, el + ":"]) + E + Rendered([ie + ":"])
  {
    var b1 := PushCommands(s, ["bne x1, x0, 1", "jal x0, " + el]);
    var b2 := Gen(t, b1).value;
    NodeEffect(t, b1);
    var b3 := PushCommands(b2, ["jal x0, " + ie, el + ":"]);
    var b4 := GenOptional(e, b3).value;
    OptionalEffect(e, b3);
    EmittedSplit(b1, b2);
    EmittedSplit(b3, b4);
    T, E, st, se := Emitted(b1, b2), Emitted(b3, b4), b1, b3;
    if e.Some? {
      assert GenOptional(e, b3) == Gen(e.value, b3);
    }
  }

  /// The code of a loop: the initializer, the continue label, the condition,
  /// a test of `x1` that skips the exit jump, the body, the post-step (nothing
  /// when absent), the jump back and the break label. The continue label
  /// comes before the condition, so a `continue` in the body, which jumps to
  /// it, skips the post-step. The body is generated with the loop's labels on
  /// top of the two stacks.
  lemma LoopLayout(c: Node, b: Node, init: Option<Node>, after: Option<Node>, s: CtxState)
      returns (k: nat, I: string, C: string, B: string, A: string, sb: CtxState, sc: CtxState)
    requires |s.vars| > 0 && Gen(Loop(c, b, init, after), s).Ok?
    ensures k >= s.id
    ensures init.Some? ==>
      Gen(init.value, EnterScope(s)).Ok? && Gen(init.value, EnterScope(s)).value.res == EnterScope(s).res + I
    ensures var bl, cl := "break_" + NatToString(k + 1), "contnue_" + NatToString(k + 2);
      && bl != cl
      && (init.None? ==> I == "") && (after.None? ==> A == "")
      && Gen(Loop(c, b, init, after), s).value.res
         == s.res + I + Rendered([cl + ":"]) + C + Rendered(["bne x1, x0, 1", "jal x0, " + bl])
            + B + A + Rendered(["jal x0, " + cl, bl + ":"])
      && |sb.vars| > 0 && Gen(b, sb).Ok? && Gen(b, sb).value.res == sb.res + B
      && sb.breakable == s.breakable + [bl] && sb.continuable == s.continuable + [cl]
    ensures |sc.vars| > 0 && Gen(c, sc).Ok? && Gen(c, sc).value.res == sc.res + C
    ensures after.Some? ==>
      Gen(after.value, Gen(b, sb).value).Ok? && Gen(after.value, Gen(b, sb).value).value.res == Gen(b, sb).value.res + A
  {
    GenOfLoop(c, b, init, after, s);
    k, I, C, B, A, sb, sc := LoopScopeLayout(c, b, init, after, s);
  }

  /// The same, for the loop's own scope: the initializer is generated in it.
  lemma LoopScopeLayout(c: Node, b: Node, init: Option<Node>, after: Option<Node>, s: CtxState)
      returns (k: nat, I: string, C: string, B: string, A: string, sb: CtxState, sc: CtxState)
    requires |s.vars| > 0 && GenLoop(c, b, init, after, s).Ok?
    ensures k >= s.id
    ensures init.Some? ==>
      Gen(init.value, EnterScope(s)).Ok? && Gen(init.value, EnterScope(s)).value.res == EnterScope(s).res + I
    ensures var bl, cl := "break_" + NatToString(k + 1), "contnue_" + NatToString(k + 2);
      && bl != cl
      && (init.None? ==> I == "") && (after.None? ==> A == "")
      && GenLoop(c, b, init, after, s).value.res
         == s.res + I + Rendered([cl + ":"]) + C + Rendered(["bne x1, x0, 1", "jal x0, " + bl])
            + B + A + Rendered(["jal x0, " + cl, bl + ":"])
      && |sb.vars| > 0 && Gen(b, sb).Ok? && Gen(b, sb).value.res == sb.res + B
      && sb.breakable == s.breakable + [bl] && sb.continuable == s.continuable + [cl]
    ensures |sc.vars| > 0 && Gen(c, sc).Ok? && Gen(c, sc).value.res == sc.res + C
    ensures after.Some? ==>
      Gen(after.value, Gen(b, sb).value).Ok? && Gen(after.value, Gen(b, sb).value).value.res == Gen(b, sb).value.res + A
  {
    var s1 := EnterScope(s);
    var s2 := GenOptional(init, s1).value;
    I := LoopInitLayout(init, s1);
    k := s2.id;
    assert GenLoop(c, b, init, after, s).value.res == GenLoopFrame(c, b, init, after, s2).value.res;
    C, B, A, sb, sc := LoopFrameLayout(c, b, init, after, s2);
  }

  /// The code of a loop's initializer: what `Gen` of it appends, or nothing
  /// when there is none; the label counter does not go back and the label
  /// stacks are as they were.
  lemma LoopInitLayout(init: Option<Node>, s: CtxState) returns (I: string)
    requires |s.vars| > 0 && GenOptional(init, s).Ok?
    ensures GenOptional(init, s).value.id >= s.id
    ensures GenOptional(init, s).value.breakable == s.breakable
    ensures GenOptional(init, s).value.continuable == s.continuable
    ensures GenOptional(init, s).value.res == s.res + I
    ensures init.None? ==> I == ""
    ensures init.Some? ==> Gen(init.value, s).Ok? && Gen(init.value, s).value.res == s.res + I
  {
    var s2 := GenOptional(init, s).value;
    OptionalEffect(init, s);
    EmittedSplit(s, s2);
    I := Emitted(s, s2);
    if init.Some? {
      assert GenOptional(init, s) == Gen(init.value, s);
    }
  }

  /// The code of a loop after its initializer: the loop's two labels are
  /// the next two the counter gives, and they differ.
  lemma LoopFrameLayout(c: Node, b: Node, init: Option<Node>, after: Option<Node>, s: CtxState)
      returns (C: string, B: string, A: string, sb: CtxState, sc: CtxState)
    requires |s.vars| > 0 && GenLoopFrame(c, b, init, after, s).Ok?
    ensures var bl, cl := "break_" + NatToString(s.id + 1), "contnue_" + NatToString(s.id + 2);
      && bl != cl && (after.None? ==> A == "")
      && GenLoopFrame(c, b, init, after, s).value.res
         == s.res + Rendered([cl + ":"]) + C + Rendered(["bne x1, x0, 1", "jal x0, " + bl])
            + B + A + Rendered(["jal x0, " + cl, bl + ":"])
      && |sb.vars| > 0 && Gen(b, sb).Ok? && Gen(b, sb).value.res == sb.res + B
      && sb.breakable == s.breakable + [bl] && sb.continuable == s.continuable + [cl]
    ensures |sc.vars| > 0 && Gen(c, sc).Ok? && Gen(c, sc).value.res == sc.res + C
    ensures after.Some? ==>
      Gen(after.value, Gen(b, sb).value).Ok? && Gen(after.value, Gen(b, sb).value).value.res == Gen(b, sb).value.res + A
  {
    var (bl, s3) := EnterBreakable(s);
    var (cl, s4) := EnterContinuable(s3);
    GetLabelFresh(s, "break_", s.(id := s.id + 1), "contnue_");
    var s5 := GenLoopBody(c, b, init, after, bl, cl, s4).value;
    assert GenLoopFrame(c, b, init, after, s).value.res == s5.res;
    C, B, A, sb, sc := LoopBodyLayout(c, b, init, after, bl, cl, s4);
  }

  /// The code between a loop's labels, with the pieces it is made of.
  lemma LoopBodyLayout(c: Node, b: Node, init: Option<Node>, after: Option<Node>,
                       bl: string, cl: string, s: CtxState)
      returns (C: string, B: string, A: string, sb: CtxState, sc: CtxState)
    requires |s.vars| > 0 && GenLoopBody(c, b, init, after, bl, cl, s).Ok?
    ensures GenLoopBody(c, b, init, after, bl, cl, s).value.res
         == s.res + Rendered([cl + ":"]) + C + Rendered(["bne x1, x0, 1", "jal x0, " + bl])
            + B + A + Rendered(["jal x0, " + cl, bl + ":"])
    ensures after.None? ==> A == ""
    ensures |sb.vars| > 0 && Gen(b, sb).Ok? && Gen(b, sb).value.res == sb.res + B
    ensures sb.breakable == s.breakable && sb.continuable == s.continuable
    ensures |sc.vars| > 0 && Gen(c, sc).Ok? && Gen(c, sc).value.res == sc.res + C
    ensures after.Some? ==>
      Gen(after.value, Gen(b, sb).value).Ok? && Gen(after.value, Gen(b, sb).value).value.res == Gen(b, sb).value.res + A
  {
    var s1 := PushCommands(s, [cl + ":"]);
    var s2 := Gen(c, s1).value;
    NodeEffect(c, s1);
    var s3 := PushCommands(DropReg(s2), ["bne x1, x0, 1", "jal x0, " + bl]);
    var s4 := Gen(b, s3).value;
    NodeEffect(b, s3);
    var s5 := GenOptional(after, s4).value;
    OptionalEffect(after, s4);
    EmittedSplit(s1, s2);
    EmittedSplit(s3, s4);
    EmittedSplit(s4, s5);
    C, B, A, sb, sc := Emitted(s1, s2), Emitted(s3, s4), Emitted(s4, s5), s3, s1;
    if after.Some? {
      assert GenOptional(after, s4) == Gen(after.value, s4);
    }
  }
}
