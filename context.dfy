/// The compilation context `Ctx` as a value, and its operations as functions
/// from one context to the next. The class `Compiler.Ctx` performs the same
/// operations in place and is proved to agree with these.
module Context {
  import opened Types
  import opened Decimal
  import opened Tables

  /// One scope: the next free offset (`first`) and the bindings made in it.
  datatype Frame = Frame(cursor: int, bindings: map<string, VariableInfo>)

  /// The parts of `Ctx` that change during a compilation. (`prefix` and
  /// `stack_begin` never change; they are the constants `PREFIX` and
  /// `STACK_BEGIN`.)
  datatype CtxState = CtxState(
    strings: string,
    res: string,
    usedReg: int,
    vars: seq<Frame>,
    breakable: seq<string>,
    continuable: seq<string>,
    id: nat)

  /// The context `reset` installs.
  function Initial(): (s: CtxState)
    ensures s.usedReg == 0 && s.id == 0
    ensures s.vars == [Frame(0x800, map[])]
    ensures s.breakable == [] && s.continuable == []
    ensures s.strings == STRINGS_HEADER && s.res == MAIN_HEADER
  {
    CtxState(STRINGS_HEADER, MAIN_HEADER, 0, [Frame(STACK_BEGIN, map[])], [], [], 0)
  }

  // ---------------------------------------------------------------------
  // Emitting text

  /// How `pushHelper` writes one line: labels (lines ending in `:`) start in
  /// column 0, everything else is indented by two spaces. (The generator never
  /// pushes an empty line; the source would read past its end.)
  function FormatLine(line: string): string {
    if |line| > 0 && line[|line| - 1] == ':' then line + "\n" else "  " + line + "\n"
  }

  /// The text `pushHelper` appends for a list of lines, in order.
  function Rendered(lines: seq<string>): string {
    if lines == [] then "" else FormatLine(lines[0]) + Rendered(lines[1..])
  }

  /// Pushing two lists one after the other appends the same text as pushing
  /// their concatenation.
  lemma {:induction false} RenderedAppend(a: seq<string>, b: seq<string>)
    ensures Rendered(a + b) == Rendered(a) + Rendered(b)
  {
    if a == [] {
      assert a + b == b;
    } else {
      var ab := a + b;
      assert ab[1..] == a[1..] + b;
      assert ab[0] == a[0];
      RenderedAppend(a[1..], b);
      calc {
        Rendered(ab);
        FormatLine(a[0]) + Rendered(a[1..] + b);
        FormatLine(a[0]) + (Rendered(a[1..]) + Rendered(b));
        (FormatLine(a[0]) + Rendered(a[1..])) + Rendered(b);
      }
    }
  }

  /// Rendering one more line of a list appends that line's text.
  lemma RenderedSnoc(lines: seq<string>, i: nat)
    requires i < |lines|
    ensures Rendered(lines[..i + 1]) == Rendered(lines[..i]) + FormatLine(lines[i])
  {
    assert lines[..i + 1] == lines[..i] + [lines[i]];
    RenderedAppend(lines[..i], [lines[i]]);
  }

  /// Every rendered line ends with a newline, so a non-empty push ends the
  /// segment on a line boundary.
  lemma RenderedEndsLine(lines: seq<string>)
    requires lines != []
    ensures |Rendered(lines)| > 0 && Rendered(lines)[|Rendered(lines)| - 1] == '\n'
  {
  }

  function PushStrings(s: CtxState, lines: seq<string>): CtxState
  {
    s.(strings := s.strings + Rendered(lines))
  }

  function PushCommands(s: CtxState, lines: seq<string>): CtxState
  {
    s.(res := s.res + Rendered(lines))
  }

  lemma ConcatAssoc(x: string, y: string, z: string)
    ensures x + y + z == x + (y + z)
  {
  }

  /// Two pushes append what one push of both lists appends.
  lemma PushStringsTwice(s: CtxState, a: seq<string>, b: seq<string>)
    ensures PushStrings(PushStrings(s, a), b) == PushStrings(s, a + b)
  {
    RenderedAppend(a, b);
    ConcatAssoc(s.strings, Rendered(a), Rendered(b));
  }

  lemma PushCommandsTwice(s: CtxState, a: seq<string>, b: seq<string>)
    ensures PushCommands(PushCommands(s, a), b) == PushCommands(s, a + b)
  {
    RenderedAppend(a, b);
    ConcatAssoc(s.res, Rendered(a), Rendered(b));
  }

  // ---------------------------------------------------------------------
  // Labels and registers

  /// `getLabel`: bumps the counter and spells the new value after the prefix.
  function GetLabel(s: CtxState, prefix: string): (string, CtxState) {
    (prefix + NatToString(s.id + 1), s.(id := s.id + 1))
  }

  /// Labels made from digit-free prefixes at different counter values never
  /// coincide, whatever their prefixes.
  lemma LabelsDistinct(p: string, m: nat, q: string, n: nat)
    requires DigitFree(p) && DigitFree(q) && m != n
    ensures p + NatToString(m) != q + NatToString(n)
  {
    if p + NatToString(m) == q + NatToString(n) {
      LabelSplit(p, m, q, n);
    }
  }

  /// The prefixes the generator passes to `getLabel`.
  predicate IsLabelPrefix(p: string) {
    p in {"str_", "else_", "if_end_", "break_", "contnue_"}
  }

  lemma LabelPrefixesDigitFree(p: string)
    requires IsLabelPrefix(p)
    ensures DigitFree(p)
  {
  }

  /// Two labels drawn in one compilation are different: the second call sees
  /// a larger counter.
  lemma GetLabelFresh(s: CtxState, p: string, t: CtxState, q: string)
    requires IsLabelPrefix(p) && IsLabelPrefix(q)
    requires t.id >= GetLabel(s, p).1.id
    ensures GetLabel(t, q).0 != GetLabel(s, p).0
    ensures GetLabel(s, p).1.id == s.id + 1
  {
    LabelPrefixesDigitFree(p);
    LabelPrefixesDigitFree(q);
    LabelsDistinct(q, t.id + 1, p, s.id + 1);
  }

  /// `useReg`: the fresh register is the incremented counter.
  function UseReg(s: CtxState): (int, CtxState) {
    (s.usedReg + 1, s.(usedReg := s.usedReg + 1))
  }

  function DropReg(s: CtxState): CtxState {
    s.(usedReg := s.usedReg - 1)
  }

  // ---------------------------------------------------------------------
  // Scopes

  function Top(vars: seq<Frame>): Frame
    requires |vars| > 0
  {
    vars[|vars| - 1]
  }

  /// `enterScope`: a new empty frame whose cursor continues from the current one.
  function EnterScope(s: CtxState): (r: CtxState)
    requires |s.vars| > 0
  {
    s.(vars := s.vars + [Frame(Top(s.vars).cursor, map[])])
  }

  /// `exitScope`: pops the innermost frame, but never the outermost one.
  function ExitScope(s: CtxState): (r: CtxState) {
    if |s.vars| > 1 then s.(vars := s.vars[..|s.vars| - 1]) else s
  }

  /// Entering and then leaving a scope restores the context exactly, and the
  /// new frame starts at the parent's cursor with nothing bound.
  lemma ScopeRoundTrip(s: CtxState)
    requires |s.vars| > 0
    ensures ExitScope(EnterScope(s)) == s
    ensures |EnterScope(s).vars| == |s.vars| + 1
    ensures EnterScope(s).vars[..|s.vars|] == s.vars
    ensures Top(EnterScope(s).vars) == Frame(Top(s.vars).cursor, map[])
  {
    assert EnterScope(s).vars[..|s.vars|] == s.vars;
  }

  /// The outermost scope is never popped: leaving a scope drops exactly the
  /// innermost frame when there are several, and nothing when only the
  /// outermost one is left; the other fields never change.
  lemma ExitScopeKeepsOutermost(s: CtxState)
    requires |s.vars| > 0
    ensures |ExitScope(s).vars| >= 1 && ExitScope(s).vars[0] == s.vars[0]
    ensures |s.vars| > 1 ==> ExitScope(s).vars == s.vars[..|s.vars| - 1]
    ensures |s.vars| == 1 ==> ExitScope(s).vars == s.vars
    ensures ExitScope(s).(vars := s.vars) == s
  {
  }

  /// `hasVar`: the name is bound in some frame (searched innermost first).
  function HasVar(vars: seq<Frame>, name: string): bool {
    if vars == [] then false
    else if name in Top(vars).bindings then true
    else HasVar(vars[..|vars| - 1], name)
  }

  /// `getVar`: the innermost binding of the name, or a name error.
  function GetVar(vars: seq<Frame>, name: string): Result<VariableInfo> {
    if vars == [] then Fail(NameError, "Cannot find variable '" + name + "' in this scope")
    else if name in Top(vars).bindings then Ok(Top(vars).bindings[name])
    else GetVar(vars[..|vars| - 1], name)
  }

  /// `hasVar` holds exactly when some frame binds the name.
  lemma {:induction false} HasVarIff(vars: seq<Frame>, name: string)
    ensures HasVar(vars, name) <==> exists i :: 0 <= i < |vars| && name in vars[i].bindings
    decreases |vars|
  {
    if vars != [] {
      var inner := vars[..|vars| - 1];
      HasVarIff(inner, name);
      if name !in Top(vars).bindings {
        forall i | 0 <= i < |vars| && name in vars[i].bindings ensures i < |inner| && name in inner[i].bindings {
          assert vars[i] == inner[i] || i == |vars| - 1;
        }
      }
    }
  }

  /// `getVar` fails, with a name error, exactly when `hasVar` is false;
  /// otherwise it returns the binding of the innermost frame that has one.
  lemma {:induction false} GetVarInnermost(vars: seq<Frame>, name: string)
    ensures GetVar(vars, name).Ok? <==> HasVar(vars, name)
    ensures GetVar(vars, name).Err? ==> GetVar(vars, name).error.kind == NameError
    ensures GetVar(vars, name).Ok? ==>
      exists i :: 0 <= i < |vars| && name in vars[i].bindings
        && vars[i].bindings[name] == GetVar(vars, name).value
        && forall j :: i < j < |vars| ==> name !in vars[j].bindings
    decreases |vars|
  {
    if vars != [] && name !in Top(vars).bindings {
      var inner := vars[..|vars| - 1];
      GetVarInnermost(inner, name);
      if GetVar(inner, name).Ok? {
        var i :| 0 <= i < |inner| && name in inner[i].bindings
          && inner[i].bindings[name] == GetVar(inner, name).value
          && forall j :: i < j < |inner| ==> name !in inner[j].bindings;
        assert vars[i] == inner[i];
        forall j | i < j < |vars| ensures name !in vars[j].bindings {
          if j < |inner| { assert vars[j] == inner[j]; }
        }
      }
    }
  }

  /// `createVar`: a name error when the innermost frame already binds the
  /// name; otherwise the innermost cursor moves down by the type's size and the
  /// new binding records the moved cursor.
  function CreateVar(s: CtxState, name: string, t: Type): Result<(VariableInfo, CtxState)>
    requires |s.vars| > 0
  {
    var top := Top(s.vars);
    if name in top.bindings then
      Fail(NameError, "Variable '" + name + "' already exists in this scope")
    else
      var size :- TypeSize(t);
      var info := VariableInfo(t, top.cursor - size);
      var top' := Frame(top.cursor - size, top.bindings[name := info]);
      Ok((info, s.(vars := s.vars[..|s.vars| - 1] + [top'])))
  }

  /// Redeclaring in the innermost scope fails, shadowing an outer binding
  /// succeeds; a new variable takes the cell just below the cursor, the outer
  /// frames and the rest of the context are untouched, and looking the name up
  /// afterwards finds the new binding.
  lemma CreateVarSpec(s: CtxState, name: string, t: Type)
    requires |s.vars| > 0
    ensures CreateVar(s, name, t).Err? <==> name in Top(s.vars).bindings || t == UNKNOWN
    ensures name in Top(s.vars).bindings ==> CreateVar(s, name, t).error.kind == NameError
    ensures CreateVar(s, name, t).Ok? ==>
      var (info, s') := CreateVar(s, name, t).value;
      && |s'.vars| == |s.vars|
      && s'.vars[..|s.vars| - 1] == s.vars[..|s.vars| - 1]
      && Top(s'.vars).cursor == Top(s.vars).cursor - 1
      && info == VariableInfo(t, Top(s'.vars).cursor)
      && Top(s'.vars).bindings == Top(s.vars).bindings[name := info]
      && s' == s.(vars := s'.vars)
      && GetVar(s'.vars, name) == Ok(info)
  {
  }

  // ---------------------------------------------------------------------
  // Loop label stacks

  function EnterBreakable(s: CtxState): (string, CtxState) {
    var (lbl, s1) := GetLabel(s, "break_");
    (lbl, s1.(breakable := s1.breakable + [lbl]))
  }

  function ExitBreakable(s: CtxState): Result<CtxState> {
    if |s.breakable| > 0 then Ok(s.(breakable := s.breakable[..|s.breakable| - 1]))
    else Fail(NameError, "Unreachable exitBreakable")
  }

  function EnterContinuable(s: CtxState): (string, CtxState) {
    var (lbl, s1) := GetLabel(s, "contnue_");
    (lbl, s1.(continuable := s1.continuable + [lbl]))
  }

  /// `exitContinuable` guards on the scope stack, not on the continue stack;
  /// popping an empty continue stack is undefined behaviour in the source.
  function ExitContinuable(s: CtxState): Result<CtxState> {
    if |s.vars| > 0 then
      if |s.continuable| > 0 then Ok(s.(continuable := s.continuable[..|s.continuable| - 1]))
      else Fail(Crash, "pop_back on an empty continuable stack")
    else Fail(NameError, "Unreachable exitContinuable")
  }

  /// Pushing a loop's labels and popping them again restores both stacks;
  /// only the label counter has moved, by two.
  lemma LoopLabelsRoundTrip(s: CtxState)
    requires |s.vars| > 0
    ensures
      var (bl, s1) := EnterBreakable(s);
      var (cl, s2) := EnterContinuable(s1);
      && ExitBreakable(s2).Ok?
      && ExitContinuable(ExitBreakable(s2).value) == Ok(s.(id := s.id + 2))
      && bl == "break_" + NatToString(s.id + 1)
      && cl == "contnue_" + NatToString(s.id + 2)
  {
    var (bl, s1) := EnterBreakable(s);
    var (cl, s2) := EnterContinuable(s1);
    assert s2.breakable[..|s2.breakable| - 1] == s.breakable;
    assert s2.continuable[..|s2.continuable| - 1] == s.continuable;
  }

  /// The wrong guard: with an empty continue stack, `exitContinuable` does not
  /// report a name error (as `exitBreakable` does for its stack) but pops anyway.
  lemma ExitContinuableWrongGuard(s: CtxState)
    requires |s.vars| > 0 && s.continuable == [] && s.breakable == []
    ensures ExitContinuable(s).Err? && ExitContinuable(s).error.kind == Crash
    ensures ExitBreakable(s).Err? && ExitBreakable(s).error.kind == NameError
  {
  }
}
