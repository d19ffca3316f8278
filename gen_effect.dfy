/// What generating any node does to the context: it touches only the innermost
/// scope, leaves the loop label stacks as it found them, only moves the label
/// counter forward, only appends to the two segments, and changes the register
/// counter by the node's `Net`.
module GenEffect {
  import opened Types
  import opened Tables
  import opened Ast
  import opened Context
  import opened Typing
  import opened Generate

  /// `t` is a context `s` can evolve into by generating code.
  ghost predicate Extends(s: CtxState, t: CtxState) {
    && |t.vars| == |s.vars|
    && (forall i | 0 <= i < |s.vars| - 1 :: t.vars[i] == s.vars[i])
    && t.breakable == s.breakable && t.continuable == s.continuable
    && s.id <= t.id
    && s.strings <= t.strings && s.res <= t.res
  }

  /// Extension is transitive.
  lemma ExtendsTrans(a: CtxState, b: CtxState, c: CtxState)
    ensures Extends(a, b) && Extends(b, c) ==> Extends(a, c)
  {
  }

  /// Extension is transitive, over three steps.
  lemma ExtendsTrans3(a: CtxState, b: CtxState, c: CtxState, d: CtxState)
    ensures Extends(a, b) && Extends(b, c) && Extends(c, d) ==> Extends(a, d)
  {
  }

  /// The effect of one node.
  lemma {:induction false} NodeEffect(n: Node, s: CtxState)
    requires |s.vars| > 0 && Gen(n, s).Ok?
    ensures Extends(s, Gen(n, s).value)
    ensures Gen(n, s).value.usedReg == s.usedReg + Net(n)
    ensures (IsExpr(n) || n.Block? || n.Loop?) ==> Gen(n, s).value.vars == s.vars
    decreases n, 4
  {
    match n
    case Number(_) =>
    case Str(_) =>
    case Variable(_) =>
    case Binary(op, l, r) => BinaryEffect(op, l, r, s);
    case Unary(op, r) => UnaryEffect(op, r, s);
    case Macro(name, arg) => MacroEffect(name, arg, s);
    case Assign(name, e) => AssignEffect(name, e, s);
    case VarDecl(name, t, e) => VarDeclEffect(name, t, e, s);
    case If(c, t, e) => IfEffect(c, t, e, s);
    case Block(ss) => BlockEffect(ss, s);
    case Loop(c, b, i, a) => LoopEffect(c, b, i, a, s);
    case Break =>
    case Continue =>
  }

  /// The effect of an optional child: nothing at all when it is absent.
  lemma {:induction false} OptionalEffect(o: Option<Node>, s: CtxState)
    requires |s.vars| > 0 && GenOptional(o, s).Ok?
    ensures Extends(s, GenOptional(o, s).value)
    ensures GenOptional(o, s).value.usedReg == s.usedReg + NetOptional(o)
    decreases o, 0
  {
    if o.Some? {
      NodeEffect(o.value, s);
    }
  }

  /// Both operands, then the operation, which releases one of their two registers.
  lemma {:induction false} BinaryEffect(op: string, l: Node, r: Node, s: CtxState)
    requires |s.vars| > 0 && GenBinary(op, l, r, s).Ok?
    ensures var t := GenBinary(op, l, r, s).value;
      && Extends(s, t) && t.usedReg == s.usedReg + Net(l) + Net(r) - 1
      && (IsExpr(l) && IsExpr(r) ==> t.vars == s.vars)
    decreases Binary(op, l, r), 1
  {
    var s1 := Gen(l, s).value;
    LeftOperandEffect(op, l, r, s);
    var lt, rt := TypeCheck(l, s.vars).value, TypeCheck(r, s.vars).value;
    RightOperandOfEffect(op, l, r, lt, rt, s1);
    ExtendsTrans(s, s1, GenRightOperand(op, r, lt, rt, s1).value);
  }

  /// The left operand, as an effect of the enclosing binary expression.
  lemma {:induction false} LeftOperandEffect(op: string, l: Node, r: Node, s: CtxState)
    requires |s.vars| > 0 && Gen(l, s).Ok?
    ensures var t := Gen(l, s).value;
      && Extends(s, t) && t.usedReg == s.usedReg + Net(l)
      && (IsExpr(l) ==> t.vars == s.vars)
    decreases Binary(op, l, r), 0
  {
    NodeEffect(l, s);
  }

  /// The right operand and the operation, as an effect of the enclosing binary expression.
  lemma {:induction false} RightOperandOfEffect(op: string, l: Node, r: Node, lt: Type, rt: Type, s: CtxState)
    requires |s.vars| > 0 && GenRightOperand(op, r, lt, rt, s).Ok?
    ensures var t := GenRightOperand(op, r, lt, rt, s).value;
      && Extends(s, t) && t.usedReg == s.usedReg + Net(r) - 1
      && (IsExpr(r) ==> t.vars == s.vars)
    decreases Binary(op, l, r), 0
  {
    RightOperandEffect(op, r, lt, rt, s);
  }

  /// The right operand, then the operation.
  lemma {:induction false} RightOperandEffect(op: string, r: Node, lt: Type, rt: Type, s: CtxState)
    requires |s.vars| > 0 && GenRightOperand(op, r, lt, rt, s).Ok?
    ensures var t := GenRightOperand(op, r, lt, rt, s).value;
      && Extends(s, t) && t.usedReg == s.usedReg + Net(r) - 1
      && (IsExpr(r) ==> t.vars == s.vars)
    decreases r, 5
  {
    var s2 := Gen(r, s).value;
    NodeEffect(r, s);
    ExtendsTrans(s, s2, BinaryOp(op, lt, rt, s2).value);
  }

  /// A unary operation computes in its operand's register.
  lemma {:induction false} UnaryEffect(op: string, r: Node, s: CtxState)
    requires |s.vars| > 0 && GenUnary(op, r, s).Ok?
    ensures var t := GenUnary(op, r, s).value;
      && Extends(s, t) && t.usedReg == s.usedReg + Net(r)
      && (IsExpr(r) ==> t.vars == s.vars)
    decreases Unary(op, r), 0
  {
    NodeEffect(r, s);
  }

  /// The argument's register is released; the call may take one for its value.
  lemma {:induction false} MacroEffect(name: string, arg: Node, s: CtxState)
    requires |s.vars| > 0 && GenMacro(name, arg, s).Ok?
    ensures var t := GenMacro(name, arg, s).value;
      && Extends(s, t) && t.usedReg == s.usedReg + Net(Macro(name, arg))
      && (IsExpr(arg) ==> t.vars == s.vars)
    decreases Macro(name, arg), 1
  {
    MacroArgEffect(name, arg, s);
    var s1 := Gen(arg, s).value;
    MacroCallEffect(name, arg, DropReg(s1));
    ExtendsTrans(s, DropReg(s1), GenMacro(name, arg, s).value);
    NetOfMacro(name, arg);
  }

  /// The argument, as an effect of the enclosing macro call.
  lemma {:induction false} MacroArgEffect(name: string, arg: Node, s: CtxState)
    requires |s.vars| > 0 && Gen(arg, s).Ok?
    ensures var t := Gen(arg, s).value;
      && Extends(s, t) && t.usedReg == s.usedReg + Net(arg)
      && (IsExpr(arg) ==> t.vars == s.vars)
    decreases Macro(name, arg), 0
  {
    NodeEffect(arg, s);
  }

  /// The call itself takes a register exactly when the macro yields a value.
  lemma MacroCallEffect(name: string, arg: Node, s: CtxState)
    requires MacroCall(name, arg, s).Ok?
    ensures var t := MacroCall(name, arg, s).value;
      Extends(s, t) && t.usedReg == s.usedReg + (if MacroYieldsValue(name) then 1 else 0)
  {
    MacroEntryResult(name, TypeCheck(arg, s.vars).value);
  }

  /// An assignment releases the register of its right-hand side.
  lemma {:induction false} AssignEffect(name: string, e: Node, s: CtxState)
    requires |s.vars| > 0 && GenAssign(name, e, s).Ok?
    ensures var t := GenAssign(name, e, s).value;
      Extends(s, t) && t.usedReg == s.usedReg + Net(e) - 1
    decreases Assign(name, e), 0
  {
    NodeEffect(e, s);
  }

  /// A declaration stores its initializer and binds the name in the innermost scope only.
  lemma {:induction false} VarDeclEffect(name: string, declared: Type, e: Node, s: CtxState)
    requires |s.vars| > 0 && GenVarDecl(name, declared, e, s).Ok?
    ensures var t := GenVarDecl(name, declared, e, s).value;
      Extends(s, t) && t.usedReg == s.usedReg + Net(e) - 1
    decreases VarDecl(name, declared, e), 0
  {
    var s1 := Gen(e, s).value;
    NodeEffect(e, s);
    var ty := if declared == UNKNOWN then TypeCheck(e, s1.vars).value else declared;
    CreateVarSpec(s1, name, ty);
    var s2 := CreateVar(s1, name, ty).value.1;
    assert Extends(s1, s2);
    ExtendsTrans(s, s1, s2);
  }

  /// The condition's register is released before the branches.
  lemma {:induction false} IfEffect(c: Node, t: Node, e: Option<Node>, s: CtxState)
    requires |s.vars| > 0 && GenIf(c, t, e, s).Ok?
    ensures var r := GenIf(c, t, e, s).value;
      Extends(s, r) && r.usedReg == s.usedReg + Net(If(c, t, e))
    decreases If(c, t, e), 2
  {
    var s1 := Gen(c, s).value;
    NodeEffect(c, s);
    var (elseLabel, s2) := Context.GetLabel(s1, "else_");
    var (ifEnd, s3) := Context.GetLabel(s2, "if_end_");
    var s4 := DropReg(s3);
    ExtendsTrans(s, s1, s4);
    IfBranchesEffect(c, t, e, elseLabel, ifEnd, s4);
    ExtendsTrans(s, s4, GenIfBranches(c, t, e, elseLabel, ifEnd, s4).value);
    NetOfIf(c, t, e);
  }

  /// The two branches, each between its jump and label lines.
  lemma {:induction false} IfBranchesEffect(c: Node, t: Node, e: Option<Node>, elseLabel: string, ifEnd: string,
                                            s: CtxState)
    requires |s.vars| > 0 && GenIfBranches(c, t, e, elseLabel, ifEnd, s).Ok?
    ensures var r := GenIfBranches(c, t, e, elseLabel, ifEnd, s).value;
      Extends(s, r) && r.usedReg == s.usedReg + Net(t) + NetOptional(e)
    decreases If(c, t, e), 1
  {
    var pre, post := ["bne x1, x0, 1", "jal x0, " + elseLabel], ["jal x0, " + ifEnd, elseLabel + ":"];
    IfThenEffect(c, t, e, pre, post, s);
    var s3 := GenBetween(pre, t, post, s).value;
    IfElseEffect(c, t, e, [ifEnd + ":"], s3);
    ExtendsTrans(s, s3, GenOptionalThen(e, [ifEnd + ":"], s3).value);
  }

  /// The then-branch, as an effect of the enclosing conditional.
  lemma {:induction false} IfThenEffect(c: Node, t: Node, e: Option<Node>, pre: seq<string>, post: seq<string>,
                                        s: CtxState)
    requires |s.vars| > 0 && GenBetween(pre, t, post, s).Ok?
    ensures var r := GenBetween(pre, t, post, s).value;
      Extends(s, r) && r.usedReg == s.usedReg + Net(t)
    decreases If(c, t, e), 0
  {
    BetweenEffect(pre, t, post, s);
  }

  /// The else-branch, as an effect of the enclosing conditional.
  lemma {:induction false} IfElseEffect(c: Node, t: Node, e: Option<Node>, post: seq<string>, s: CtxState)
    requires |s.vars| > 0 && GenOptionalThen(e, post, s).Ok?
    ensures var r := GenOptionalThen(e, post, s).value;
      Extends(s, r) && r.usedReg == s.usedReg + NetOptional(e)
    decreases If(c, t, e), 0
  {
    OptionalThenEffect(e, post, s);
  }

  /// A child between two groups of lines has the child's effect.
  lemma {:induction false} BetweenEffect(pre: seq<string>, n: Node, post: seq<string>, s: CtxState)
    requires |s.vars| > 0 && GenBetween(pre, n, post, s).Ok?
    ensures var t := GenBetween(pre, n, post, s).value;
      Extends(s, t) && t.usedReg == s.usedReg + Net(n)
    decreases n, 5
  {
    var s1 := PushCommands(s, pre);
    NodeEffect(n, s1);
    var s2 := Gen(n, s1).value;
    ExtendsTrans(s, s1, s2);
    ExtendsTrans(s, s2, PushCommands(s2, post));
  }

  /// An optional child followed by fixed lines has the child's effect.
  lemma {:induction false} OptionalThenEffect(o: Option<Node>, post: seq<string>, s: CtxState)
    requires |s.vars| > 0 && GenOptionalThen(o, post, s).Ok?
    ensures var t := GenOptionalThen(o, post, s).value;
      Extends(s, t) && t.usedReg == s.usedReg + NetOptional(o)
    decreases o, 1
  {
    OptionalEffect(o, s);
    var s1 := GenOptional(o, s).value;
    ExtendsTrans(s, s1, PushCommands(s1, post));
  }

  /// The register balance of a macro call, unfolded.
  lemma NetOfMacro(name: string, arg: Node)
    ensures Net(Macro(name, arg)) == Net(arg) - 1 + (if MacroYieldsValue(name) then 1 else 0)
  {
  }

  /// The register balance of a conditional, unfolded.
  lemma NetOfIf(c: Node, t: Node, e: Option<Node>)
    ensures Net(If(c, t, e)) == Net(c) - 1 + Net(t) + NetOptional(e)
  {
  }

  /// A block opens a scope, generates its statements and closes the scope again.
  lemma {:induction false} BlockEffect(ss: seq<Node>, s: CtxState)
    requires |s.vars| > 0 && GenBlock(ss, s).Ok?
    ensures var r := GenBlock(ss, s).value;
      Extends(s, r) && r.usedReg == s.usedReg + NetSeq(ss) && r.vars == s.vars
    decreases Block(ss), 0
  {
    var s1 := EnterScope(s);
    ScopeRoundTrip(s);
    SeqEffect(ss, s1);
    var s2 := GenSeq(ss, s1).value;
    var k := |s.vars|;
    assert s2.vars[..|s2.vars| - 1] == s.vars;
  }

  /// The effect of a statement list: the sum of the effects of its members.
  lemma {:induction false} SeqEffect(ss: seq<Node>, s: CtxState)
    requires |s.vars| > 0 && GenSeq(ss, s).Ok?
    ensures Extends(s, GenSeq(ss, s).value)
    ensures GenSeq(ss, s).value.usedReg == s.usedReg + NetSeq(ss)
    decreases ss, 0
  {
    if ss != [] {
      var s1 := Gen(ss[0], s).value;
      NodeEffect(ss[0], s);
      SeqEffect(ss[1..], s1);
      ExtendsTrans(s, s1, GenSeq(ss[1..], s1).value);
    }
  }

  /// A loop runs its initializer in a scope of its own.
  lemma {:induction false} LoopEffect(c: Node, b: Node, init: Option<Node>, after: Option<Node>, s: CtxState)
    requires |s.vars| > 0 && GenLoop(c, b, init, after, s).Ok?
    ensures var r := GenLoop(c, b, init, after, s).value;
      Extends(s, r) && r.usedReg == s.usedReg + Net(Loop(c, b, init, after)) && r.vars == s.vars
    decreases Loop(c, b, init, after), 3
  {
    var s1 := EnterScope(s);
    ScopeRoundTrip(s);
    OptionalEffect(init, s1);
    var s2 := GenOptional(init, s1).value;
    LoopFrameEffect(c, b, init, after, s2);
    var s7 := GenLoopFrame(c, b, init, after, s2).value;
    assert GenLoop(c, b, init, after, s) == Ok(ExitScope(s7));
    var k := |s.vars|;
    assert s7.vars[..k] == s2.vars[..k] == s.vars;
    NetOfLoop(c, b, init, after);
  }

  /// The label stacks come back as they were; the body's effect remains.
  lemma {:induction false} LoopFrameEffect(c: Node, b: Node, init: Option<Node>, after: Option<Node>, s: CtxState)
    requires |s.vars| > 0 && GenLoopFrame(c, b, init, after, s).Ok?
    ensures var r := GenLoopFrame(c, b, init, after, s).value;
      Extends(s, r) && r.usedReg == s.usedReg + Net(c) - 1 + Net(b) + NetOptional(after)
    decreases Loop(c, b, init, after), 2
  {
    var (breakLabel, s3) := EnterBreakable(s);
    var (continueLabel, s4) := EnterContinuable(s3);
    LoopBodyEffect(c, b, init, after, breakLabel, continueLabel, s4);
    var s5 := GenLoopBody(c, b, init, after, breakLabel, continueLabel, s4).value;
    var s6 := ExitBreakable(s5).value;
    assert s6 == s5.(breakable := s.breakable);
    assert ExitContinuable(s6).value == s5.(breakable := s.breakable, continuable := s.continuable);
  }

  /// The register balance of a loop, unfolded.
  lemma NetOfLoop(c: Node, b: Node, init: Option<Node>, after: Option<Node>)
    ensures Net(Loop(c, b, init, after)) == NetOptional(init) + Net(c) - 1 + Net(b) + NetOptional(after)
  {
  }

  /// The test, the body, the post-step and the closing lines.
  lemma {:induction false} LoopBodyEffect(c: Node, b: Node, init: Option<Node>, after: Option<Node>,
                                          breakLabel: string, continueLabel: string, s: CtxState)
    requires |s.vars| > 0 && GenLoopBody(c, b, init, after, breakLabel, continueLabel, s).Ok?
    ensures var r := GenLoopBody(c, b, init, after, breakLabel, continueLabel, s).value;
      Extends(s, r) && r.usedReg == s.usedReg + Net(c) - 1 + Net(b) + NetOptional(after)
    decreases Loop(c, b, init, after), 1
  {
    LoopCondEffect(c, b, init, after, breakLabel, continueLabel, s);
    var s3 := GenLoopTest(c, breakLabel, continueLabel, s).value;
    var post := ["jal x0, " + continueLabel, breakLabel + ":"];
    LoopInnerEffect(c, b, init, after, s3);
    var s4 := Gen(b, s3).value;
    LoopPostEffect(c, b, init, after, post, s4);
    ExtendsTrans3(s, s3, s4, GenOptionalThen(after, post, s4).value);
  }

  /// The test of the condition, as an effect of the enclosing loop.
  lemma {:induction false} LoopCondEffect(c: Node, b: Node, init: Option<Node>, after: Option<Node>,
                                          breakLabel: string, continueLabel: string, s: CtxState)
    requires |s.vars| > 0 && GenLoopTest(c, breakLabel, continueLabel, s).Ok?
    ensures var r := GenLoopTest(c, breakLabel, continueLabel, s).value;
      Extends(s, r) && r.usedReg == s.usedReg + Net(c) - 1
    decreases Loop(c, b, init, after), 0
  {
    LoopTestEffect(c, breakLabel, continueLabel, s);
  }

  /// The loop body, as an effect of the enclosing loop.
  lemma {:induction false} LoopInnerEffect(c: Node, b: Node, init: Option<Node>, after: Option<Node>, s: CtxState)
    requires |s.vars| > 0 && Gen(b, s).Ok?
    ensures Extends(s, Gen(b, s).value) && Gen(b, s).value.usedReg == s.usedReg + Net(b)
    decreases Loop(c, b, init, after), 0
  {
    NodeEffect(b, s);
  }

  /// The post-step followed by the jump back and the break label, as an effect of the enclosing loop.
  lemma {:induction false} LoopPostEffect(c: Node, b: Node, init: Option<Node>, after: Option<Node>, post: seq<string>, s: CtxState)
    requires |s.vars| > 0 && GenOptionalThen(after, post, s).Ok?
    ensures var r := GenOptionalThen(after, post, s).value;
      Extends(s, r) && r.usedReg == s.usedReg + NetOptional(after)
    decreases Loop(c, b, init, after), 0
  {
    OptionalThenEffect(after, post, s);
  }

  /// The test consumes the condition's register.
  lemma {:induction false} LoopTestEffect(c: Node, breakLabel: string, continueLabel: string, s: CtxState)
    requires |s.vars| > 0 && GenLoopTest(c, breakLabel, continueLabel, s).Ok?
    ensures var r := GenLoopTest(c, breakLabel, continueLabel, s).value;
      Extends(s, r) && r.usedReg == s.usedReg + Net(c) - 1
    decreases c, 5
  {
    var s1 := PushCommands(s, [continueLabel + ":"]);
    var s2 := Gen(c, s1).value;
    NodeEffect(c, s1);
    ExtendsTrans(s, s1, s2);
    ExtendsTrans(s, s2, PushCommands(DropReg(s2), ["bne x1, x0, 1", "jal x0, " + breakLabel]));
  }
}
