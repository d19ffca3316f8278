/// The `typeCheck` methods of the node classes: a pure recursive function
/// that only reads the scope stack.
module Typing {
  import opened Types
  import opened Tables
  import opened Ast
  import opened Context

  function TypeCheck(n: Node, vars: seq<Frame>): (r: Result<Type>)
    ensures n.Number? ==> r == Ok(I32)
    ensures n.Str? ==> r == Ok(STR)
    ensures (n.Binary? || n.Unary?) && r.Ok? ==> r.value == I32
    ensures (n.If? || n.Block? || n.Loop? || n.Break? || n.Continue?) && r.Ok? ==> r.value == UNKNOWN
    decreases n, 1
  {
    CheckNode(n, vars)
  }

  function CheckNode(n: Node, vars: seq<Frame>): (r: Result<Type>)
    ensures n.Number? ==> r == Ok(I32)
    ensures n.Str? ==> r == Ok(STR)
    ensures (n.Binary? || n.Unary?) && r.Ok? ==> r.value == I32
    ensures (n.If? || n.Block? || n.Loop? || n.Break? || n.Continue?) && r.Ok? ==> r.value == UNKNOWN
    decreases n, 0
  {
    match n
    case Number(_) => Ok(I32)
    case Str(_) => Ok(STR)
    case Variable(name) =>
      var info :- GetVar(vars, name);
      Ok(info.ty)
    case Binary(op, left, right) =>
      var lt :- TypeCheck(left, vars);
      var rt :- TypeCheck(right, vars);
      if lt == I32 && rt == I32 && IntOp(op).Some? then Ok(I32)
      else if lt == STR && rt == I32 && op == "[]" then Ok(I32)
      else Fail(TypeError, "Invalid types: " + TypeName(lt) + " and " + TypeName(rt) + " for operator `" + op + "`")
    case Unary(op, right) =>
      var rt :- TypeCheck(right, vars);
      if rt != I32 then Fail(TypeError, "Unary '" + op + "' requires i32 operand") else Ok(rt)
    case Macro(name, arg) =>
      if name !in MACROS then Fail(NameError, "Unknown macro '" + name + "'")
      else
        var t :- TypeCheck(arg, vars);
        var entry :- MacroLookup(name, t);
        Ok(entry.result)
    case Assign(name, e) =>
      var et :- TypeCheck(e, vars);
      var info :- GetVar(vars, name);
      if info.ty != et && info.ty != UNKNOWN then
        Fail(TypeError, "Cannot assign " + TypeName(et) + " to variable '" + name + "' of type " + TypeName(info.ty))
      else Ok(et)
    case VarDecl(name, declared, e) =>
      var et :- TypeCheck(e, vars);
      if declared != UNKNOWN && declared != et then
        Fail(TypeError, "Cannot initialize " + TypeName(declared) + " variable '" + name + "' with " + TypeName(et) + " value")
      else Ok(if declared == UNKNOWN then et else declared)
    case If(c, _, _) =>
      var ct :- TypeCheck(c, vars);
      if ct != I32 then Fail(TypeError, "If condition must be a i32") else Ok(UNKNOWN)
    case Block(_) => Ok(UNKNOWN)
    case Loop(c, _, _, _) =>
      var ct :- TypeCheck(c, vars);
      if ct != I32 then Fail(TypeError, "If condition must be a i32") else Ok(UNKNOWN)
    case Break => Ok(UNKNOWN)
    case Continue => Ok(UNKNOWN)
  }

  /// Binary operator typing is table driven: with well-typed operands the
  /// result is `i32` exactly for an integer operator on two integers or for
  /// indexing a string by an integer; every other combination is a type error.
  lemma BinaryTyping(op: string, left: Node, right: Node, vars: seq<Frame>)
    requires TypeCheck(left, vars).Ok? && TypeCheck(right, vars).Ok?
    ensures
      var lt, rt := TypeCheck(left, vars).value, TypeCheck(right, vars).value;
      && (TypeCheck(Binary(op, left, right), vars).Ok? <==>
           (lt == I32 && rt == I32 && IntOp(op).Some?) || (lt == STR && rt == I32 && op == "[]"))
      && (TypeCheck(Binary(op, left, right), vars).Err? ==>
           TypeCheck(Binary(op, left, right), vars).error.kind == TypeError)
  {
  }

  /// An `if` or a loop checks exactly when its condition checks as `i32`; it
  /// then has no value. A condition of another type is a type error (the loop
  /// reuses the `if` message), and a failing condition check is passed on.
  lemma ConditionTyping(n: Node, vars: seq<Frame>)
    requires n.If? || n.Loop?
    ensures TypeCheck(n.condition, vars).Err? ==> TypeCheck(n, vars) == Err(TypeCheck(n.condition, vars).error)
    ensures TypeCheck(n.condition, vars).Ok? ==>
      (TypeCheck(n, vars).Ok? <==> TypeCheck(n.condition, vars).value == I32)
    ensures TypeCheck(n.condition, vars).Ok? && TypeCheck(n.condition, vars).value != I32 ==>
      TypeCheck(n, vars) == Fail(TypeError, "If condition must be a i32")
    ensures TypeCheck(n, vars).Ok? ==> TypeCheck(n, vars).value == UNKNOWN
  {
  }

  /// An assignment checks exactly when its right-hand side checks, the
  /// variable is found, and its type is the value's type or `UNKNOWN`; it then
  /// has the value's type. A type mismatch is a type error.
  lemma AssignTyping(name: string, e: Node, vars: seq<Frame>)
    requires TypeCheck(e, vars).Ok? && GetVar(vars, name).Ok?
    ensures var et, vt := TypeCheck(e, vars).value, GetVar(vars, name).value.ty;
      && (TypeCheck(Assign(name, e), vars).Ok? <==> vt == et || vt == UNKNOWN)
      && (TypeCheck(Assign(name, e), vars).Ok? ==> TypeCheck(Assign(name, e), vars).value == et)
      && (TypeCheck(Assign(name, e), vars).Err? ==> TypeCheck(Assign(name, e), vars).error.kind == TypeError)
  {
  }

  /// The failures of an assignment's check: that of its right-hand side
  /// first, then that of the variable lookup.
  lemma AssignTypingFails(name: string, e: Node, vars: seq<Frame>)
    ensures TypeCheck(e, vars).Err? ==> TypeCheck(Assign(name, e), vars) == Err(TypeCheck(e, vars).error)
    ensures TypeCheck(e, vars).Ok? && GetVar(vars, name).Err? ==>
      TypeCheck(Assign(name, e), vars) == Err(GetVar(vars, name).error)
  {
  }

  /// A declaration checks exactly when its initializer checks with the
  /// declared type, or the type is left out (`UNKNOWN`); the declared type
  /// wins, and the initializer's type fills in a missing one. A mismatch is a
  /// type error, and a failing initializer check is passed on.
  lemma VarDeclTyping(name: string, declared: Type, e: Node, vars: seq<Frame>)
    ensures TypeCheck(e, vars).Err? ==> TypeCheck(VarDecl(name, declared, e), vars) == Err(TypeCheck(e, vars).error)
    ensures TypeCheck(e, vars).Ok? ==>
      var et, r := TypeCheck(e, vars).value, TypeCheck(VarDecl(name, declared, e), vars);
      && (r.Ok? <==> declared == UNKNOWN || declared == et)
      && (r.Ok? ==> r.value == if declared == UNKNOWN then et else declared)
      && (r.Err? ==> r.error.kind == TypeError)
  {
  }

  /// A successful check of an assignment has found its variable, so the
  /// generator's own "Undefined variable" test can never fire.
  lemma AssignCheckFindsVariable(name: string, e: Node, vars: seq<Frame>)
    requires TypeCheck(Assign(name, e), vars).Ok?
    ensures HasVar(vars, name)
  {
    GetVarInnermost(vars, name);
  }

  /// No binding in scope has the placeholder type (declarations of an
  /// `UNKNOWN` variable never succeed).
  ghost predicate BindingsTyped(vars: seq<Frame>) {
    forall i, x :: 0 <= i < |vars| && x in vars[i].bindings ==> vars[i].bindings[x].ty != UNKNOWN
  }

  /// A well-typed expression has a value type, except a call of a macro that
  /// leaves no value; such a call only checks with an argument of a value type.
  lemma {:induction false} ExprType(n: Node, vars: seq<Frame>)
    requires IsExpr(n) && BindingsTyped(vars) && TypeCheck(n, vars).Ok?
    ensures TypeCheck(n, vars).value == UNKNOWN <==> n.Macro? && !MacroYieldsValue(n.name)
    ensures n.Macro? ==> TypeCheck(n.arg, vars).Ok? && TypeCheck(n.arg, vars).value != UNKNOWN
  {
    match n
    case Variable(name) =>
      GetVarInnermost(vars, name);
    case Macro(name, arg) =>
      MacroLookupTable(name, TypeCheck(arg, vars).value);
    case _ =>
  }
}
