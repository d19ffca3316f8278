# A verified model of a small compiler back end

The system compiles a tree of `Node` objects (integer and string literals,
variables, binary and unary operators, macro calls, assignments,
declarations, `if`, blocks, loops, `break` and `continue`) into text for a
RISC-V-like assembler. One global compilation context `Ctx` is threaded through the
walk. It holds three text segments (the runtime preamble, the string data and
the instructions), a scope stack of `(offset cursor, bindings)` frames, a
virtual-register counter `usedReg`, a label counter `id`, and the break and
continue label stacks. Each node kind has a `typeCheck` that reads the scope
stack only and a `gen` that updates the context step by step. Type and name
errors end the compiler.

The model has two layers.

- **Values.** `Context.CtxState` is the changing part of `Ctx` as a record.
  The context helpers (`Context`), the type checker (`Typing`) and every
  node's `gen` (`Generate`) are functions from one context to the next, or
  to the error that stops the compilation (`Types.Result`).
- **The object.** `Compiler.Ctx` is a class with the fields of `Ctx`. Its
  methods update them in place, as the source does. Each method is proved
  to succeed or fail exactly as the corresponding function does, and to
  leave the object in the function's final context (`Compiler.Agrees`).

The lemmas are stated about the functions, so they hold of the object too.
They are in these modules:

- `GenEffect`: what generating any node does to the context.
- `GenProps`: register use per node kind, the layout of the emitted code,
  and the behaviour the source has by construction.
- `Context`, `Typing`, `Tables`, `Decimal` and `Unescape`: the helpers.

Behaviour of the source that the model keeps on purpose:

- `if` and loops test register `x1`, whatever register holds the condition.
- The continue label comes before the condition, so `continue` skips a
  loop's post-step.
- `exitContinuable` guards on the scope stack instead of the continue stack.
- `UnaryNode::gen` does not check its operand's type.
- The "Undefined variable" error of `AssignNode::gen` can never fire.
- A declaration generates its initializer before it creates the variable,
  so the initializer sees an outer variable of the same name.
- `continue` outside a loop reports "Not in context to break".
- The continue labels are spelled `contnue_N`.

`compile` calls `reset` first and `Compiler.Ctx.Compile` returns exactly
`Generate.Compile(block)`, a function of the tree alone, so compiling the same tree
twice gives the same text.

## Model

| member | source | states |
|---|---|---|
| Types.TypeSize | compiler/src/compiler.cpp:25-29 | succeeds exactly for `I32` and `STR`, always with size 1; `UNKNOWN` is a crash |
| Types.TypeName | compiler/src/error.cpp:54-65 | every type has a non-empty spelling in diagnostics |
| Ast.BlockNode.constructor | compiler/src/compiler.hpp:252 | a new block has no statements and does not return a value |
| Ast.BlockNode.AddStatement | compiler/src/compiler.hpp:257 | the statement is appended after the existing ones; `returnsValue` is untouched |
| Ast.BlockNode.SetReturnsValue | compiler/src/compiler.hpp:259 | sets the flag and keeps the statements |
| Ast.BlockNode.ToNode | compiler/src/compiler.hpp:247-250 | the tree the generator sees is a block with the same statements in the same order |
| Ast.NetSeqAppend | compiler/src/compiler.cpp:416-418 | the register balance of two statement lists run one after the other is the sum of their balances |
| Decimal.NatToStringDigits | compiler/src/compiler.cpp:20-23 | the decimal spelling of a label number is a non-empty string of digits |
| Decimal.ParseNatToString | compiler/src/compiler.cpp:20-23 | reading back the decimal spelling gives the number again |
| Decimal.NatToStringInjective | compiler/src/compiler.cpp:20-23 | different numbers are spelled differently |
| Decimal.LabelSplit | compiler/src/compiler.cpp:20-23 | a digit-free prefix followed by a number splits back into that prefix and that number |
| Tables.MacroLookupTable | compiler/src/compiler.cpp:314-325 | the lookup succeeds exactly for `print!` on `i32` or `str`, `len!` on `str`, and `print_char!` on `i32`; only `len!` yields a value; every failure is a name error |
| Tables.MacroEntryResult | compiler/src/compiler.cpp:292-298 | an entry of the table yields a value exactly when the macro is `len!` |
| Tables.MacroRoutinesDefined | compiler/src/compiler.hpp:23-84 | every routine the macro table can resolve to is a label line of the preamble |
| Tables.SegmentEntryPoints | compiler/src/compiler.hpp:23-93 | the preamble's first instruction is `jal x0, main` and the instruction segment starts out ending with `main:` |
| Context.Initial | compiler/src/compiler.hpp:86-105 | a fresh context has `usedReg` and `id` 0, one frame with cursor `0x800` and no bindings, empty label stacks, and the two segment headers |
| Context.RenderedAppend | compiler/src/compiler.cpp:31-37 | pushing two lists of lines one after the other appends the same text as pushing their concatenation |
| Context.RenderedEndsLine | compiler/src/compiler.cpp:31-37 | the text of a non-empty push ends with a newline |
| Context.PushStringsTwice | compiler/src/compiler.cpp:39-41 | two pushes to the strings segment equal one push of both lists |
| Context.PushCommandsTwice | compiler/src/compiler.cpp:43-45 | two pushes to the instruction segment equal one push of both lists |
| Context.LabelsDistinct | compiler/src/compiler.cpp:20-23 | labels made from digit-free prefixes at different counter values differ, whatever the prefixes |
| Context.GetLabelFresh | compiler/src/compiler.cpp:20-23 | `getLabel` moves the counter up by exactly 1, and a label drawn later in the same compilation differs from it |
| Context.ScopeRoundTrip | compiler/src/compiler.cpp:47-57 | entering then leaving a scope restores the context exactly; the new frame starts at the parent's cursor with nothing bound and the outer frames are untouched |
| Context.ExitScopeKeepsOutermost | compiler/src/compiler.cpp:53-57 | leaving a scope drops exactly the innermost frame when there are several and nothing when only the outermost is left, so at least one frame remains and the outermost frame is kept; no other field changes |
| Context.HasVarIff | compiler/src/compiler.cpp:92-97 | `hasVar` is true exactly when some frame binds the name |
| Context.GetVarInnermost | compiler/src/compiler.cpp:99-107 | `getVar` fails, with a name error, exactly when `hasVar` is false; otherwise it returns the binding of the innermost frame that binds the name |
| Context.CreateVarSpec | compiler/src/compiler.cpp:110-118 | fails exactly when the innermost frame already binds the name (a name error) or the type has no size; shadowing an outer binding succeeds; the innermost cursor drops by 1, the binding's offset is the new cursor, the outer frames and the rest of the context are unchanged, and `getVar` then finds the new binding |
| Context.LoopLabelsRoundTrip | compiler/src/compiler.cpp:59-83 | a loop's `break_N` and `contnue_N+1` labels are the next two labels; popping them restores both stacks, and only the counter has moved, by two |
| Context.ExitContinuableWrongGuard | compiler/src/compiler.cpp:64-83 | with empty stacks, `exitBreakable` reports a name error but `exitContinuable` passes its guard and pops an empty stack (a crash) |
| Typing.TypeCheck | compiler/src/compiler.cpp:252-290 | literals check as `i32` and `str`; a successful operator check is `i32`; `if`, blocks, loops, `break` and `continue` check as `UNKNOWN` |
| Typing.BinaryTyping | compiler/src/compiler.cpp:252-268 | with well-typed operands a binary node checks exactly for an integer operator of the table on two `i32`, or `[]` on `str` and `i32`; otherwise it is a type error |
| Typing.ConditionTyping | compiler/src/compiler.cpp:403-410 | an `if`, or a loop with the same check at lines 459-468, checks exactly when its condition checks as `i32`, and then has type `UNKNOWN`; another condition type is the type error "If condition must be a i32" (the loop reuses the `if` message), and a failing condition check is passed on |
| Typing.AssignTyping | compiler/src/compiler.cpp:342-353 | once the right-hand side checks and the variable is found, an assignment checks exactly when the variable's type equals the value's or is `UNKNOWN`, has the value's type, and otherwise is a type error |
| Typing.AssignTypingFails | compiler/src/compiler.cpp:342-345 | a failure of the right-hand side's check, and then of the variable lookup, is the assignment's failure |
| Typing.VarDeclTyping | compiler/src/compiler.cpp:367-378 | a declaration checks exactly when the declared type is `UNKNOWN` or equals the initializer's type; its type is the declared one, or the initializer's when none is declared; a mismatch is a type error, and a failing initializer check is passed on |
| Typing.AssignCheckFindsVariable | compiler/src/compiler.cpp:342-353 | an assignment that type checks has found its variable in scope |
| Typing.ExprType | compiler/src/compiler.cpp:314-325 | with typed bindings, a well-typed expression has type `UNKNOWN` exactly when it is a call of a macro that yields nothing, and a macro's argument has a value type |
| Unescape.Unescape | compiler/src/compiler.cpp:136-194 | the scan with `last_pos` returns exactly the left-to-right decoding `Unescaped` of its input |
| Unescape.EscapeStep | compiler/src/compiler.cpp:145-189 | copying the text since `last_pos` and then the replacement character, and moving past the two-character match, keeps the text decoded so far plus the decoding of the rest equal to the decoding of the whole input |
| Unescape.PlainStep | compiler/src/compiler.cpp:145-151 | a character that starts no escape moves into the pending text between matches without changing the decoding |
| Unescape.UnescapedNoLonger | compiler/src/compiler.cpp:136-194 | decoding never makes the text longer |
| Unescape.UnescapedPlain | compiler/src/compiler.cpp:136-194 | text without a backslash is returned unchanged |
| Unescape.EscapeDecodes | compiler/src/compiler.cpp:153-183 | each of `\n \t \r \b \f \' \" \\` decodes to its one character |
| Unescape.UnescapeEscaped | compiler/src/compiler.cpp:136-194 | decoding undoes a reference encoder that escapes the special characters, so decoding loses no text |
| Generate.CellValue | compiler/src/compiler.cpp:205-207 | a byte's data cell holds a value in `-128..127` (signed `char`), equal to the character code below 128 |
| Generate.DataCells | compiler/src/compiler.cpp:205-207 | one `data c * 1` cell per decoded byte, in order |
| Generate.Gen | compiler/src/compiler.hpp:111 | generating a node keeps the depth of the scope stack (its effects are stated by `GenEffect.NodeEffect`) |
| Generate.BinaryOp | compiler/src/compiler.cpp:233-249 | the operator step leaves the scope stack unchanged |
| Generate.MacroCall | compiler/src/compiler.cpp:305-311 | the call step leaves the scope stack unchanged |
| Generate.GenOptional | compiler/src/compiler.cpp:395-397 | an absent child generates nothing and changes nothing |
| GenEffect.NodeEffect | compiler/src/compiler.cpp:121-489 | generating any node only appends to the two segments, only moves the label counter up, touches only the innermost frame, returns both label stacks as they were, and changes `usedReg` by the node's `Net`; expressions, blocks and loops leave the scope stack unchanged |
| GenEffect.OptionalEffect | compiler/src/compiler.cpp:395-397 | the effect of an optional child is that of the child, or none when it is absent |
| GenEffect.BinaryEffect | compiler/src/compiler.cpp:226-250 | a binary node nets `Net(l) + Net(r) - 1` registers |
| GenEffect.RightOperandEffect | compiler/src/compiler.cpp:231-249 | the right operand and the operator step net `Net(r) - 1` registers |
| GenEffect.UnaryEffect | compiler/src/compiler.cpp:270-281 | a unary node nets its operand's registers |
| GenEffect.MacroEffect | compiler/src/compiler.cpp:300-312 | a macro call frees its argument's register and takes one back only for a macro that yields a value |
| GenEffect.MacroCallEffect | compiler/src/compiler.cpp:305-311 | the call step takes a register exactly for `len!` |
| GenEffect.AssignEffect | compiler/src/compiler.cpp:327-340 | an assignment nets `Net(e) - 1` registers |
| GenEffect.VarDeclEffect | compiler/src/compiler.cpp:355-365 | a declaration nets `Net(e) - 1` registers and changes only the innermost frame |
| GenEffect.IfEffect | compiler/src/compiler.cpp:380-401 | an `if` nets the condition's registers minus the one it consumes, plus its branches' |
| GenEffect.IfBranchesEffect | compiler/src/compiler.cpp:386-400 | the code after the condition nets the branches' registers |
| GenEffect.BetweenEffect | compiler/src/compiler.cpp:386-394 | a child between two groups of lines has the child's effect |
| GenEffect.OptionalThenEffect | compiler/src/compiler.cpp:395-400 | an optional child followed by lines has the child's effect |
| GenEffect.BlockEffect | compiler/src/compiler.cpp:413-421 | a block nets the sum over its statements and hands back exactly the scope stack it started with |
| GenEffect.SeqEffect | compiler/src/compiler.cpp:416-418 | a statement list nets the sum over its statements |
| GenEffect.LoopEffect | compiler/src/compiler.cpp:426-457 | a loop nets the sum over its parts minus the condition's register, returns the break and continue stacks as they were, and hands back the scope stack it started with |
| GenEffect.LoopFrameEffect | compiler/src/compiler.cpp:432-455 | pushing and popping the loop's labels around its code leaves both stacks as they were |
| GenEffect.LoopBodyEffect | compiler/src/compiler.cpp:435-452 | the code between the loop's labels nets the condition's registers minus one, plus the body's and the post-step's |
| GenEffect.LoopTestEffect | compiler/src/compiler.cpp:435-444 | the exit test consumes the condition's register |
| GenProps.ExprGenTotal | compiler/src/compiler.cpp:226-325 | an expression that type checks also generates, and leaves the scope stack alone |
| GenProps.ExprNet | compiler/src/compiler.cpp:121-325 | an expression nets one register, or none when it is a call of a macro that yields nothing |
| GenProps.VariableLoad | compiler/src/compiler.cpp:121-127 | reading a variable loads its offset from `x0` into the fresh register `usedReg + 1` and changes nothing else |
| GenProps.ExprRegisters | compiler/src/compiler.cpp:121-134 | literals, variables and operators net `usedReg` +1; a macro call nets +1 exactly when it is `len!`, otherwise 0 |
| GenProps.GetVarTyped | compiler/src/compiler.cpp:99-107 | with typed bindings, the binding `getVar` finds has a value type |
| GenProps.AssignRegisters | compiler/src/compiler.cpp:327-340 | an assignment of an expression nets 0 registers |
| GenProps.DeclRegisters | compiler/src/compiler.cpp:355-365 | a declaration with an expression initializer nets 0 registers |
| GenProps.DeclInitTyped | compiler/src/compiler.cpp:355-378 | a declaration that compiles has an initializer of a value type |
| GenProps.CreateVarKeepsTyped | compiler/src/compiler.cpp:110-118 | a successful `createVar` keeps every binding of a value type |
| GenProps.ScopesKeepTyped | compiler/src/compiler.cpp:47-57 | entering and leaving scopes keeps every binding of a value type |
| GenProps.BinaryIntRegisters | compiler/src/compiler.cpp:226-242 | on two `i32` operands an integer operator takes the left operand's register `usedReg+1` and the right's `usedReg+2`, emits its one instruction into `usedReg+1`, and nets +1 |
| GenProps.StringIndexRegisters | compiler/src/compiler.cpp:243-245 | indexing a string adds the index to the string's address in the left register and loads the cell into it, netting +1 |
| GenProps.ComparisonMirror | compiler/src/compiler.cpp:217-242 | `<=` and `>` emit `sge` and `slt` with the operands exchanged |
| GenProps.OperandOrderKept | compiler/src/compiler.cpp:217-242 | every other integer operator emits its mnemonic with the operands in order |
| GenProps.UnaryNoOperandCheck | compiler/src/compiler.cpp:270-290 | negating a string literal compiles, although type checking the same node is a type error |
| GenProps.AssignUndefinedUnreachable | compiler/src/compiler.cpp:327-333 | when the assignment's check fails, generation fails with the check's error; when it succeeds the variable exists, so the "Undefined variable" error never fires |
| GenProps.DeclarationSeesOuterBinding | compiler/src/compiler.cpp:355-365 | `let x = x;` loads the outer `x`, stores it in the cell just below the innermost cursor, binds the new `x` there with the outer type, and nets 0 registers |
| GenProps.SiblingBlocksReuseOffsets | compiler/src/compiler.cpp:413-421 | after a block the scope stack is as before, so the first declaration of the next block gets the same cell as the first declaration of the first block |
| GenProps.StringDataLayout | compiler/src/compiler.cpp:196-207 | a literal's data is a comment, its label, a length cell equal to the decoded length, then one cell per decoded byte |
| GenProps.StringLiteralEffect | compiler/src/compiler.cpp:196-212 | a string literal draws the label `str_N` for the next counter value, appends its data to the strings segment, takes exactly one register, and emits one `li` of the label into it |
| GenProps.GenSeqAppend | compiler/src/compiler.cpp:416-418 | the statements of `a + b` are generated as `a`, then `b` from where `a` left off |
| GenProps.SeqAppendNet | compiler/src/compiler.cpp:413-421 | statements added as `a` and then `b` generate as `a` followed by `b`, and net the registers of `a` plus those of `b` |
| GenProps.BreakTarget | compiler/src/compiler.cpp:470-478 | `break` jumps to the top of the break stack, and fails with the name error exactly when the stack is empty |
| GenProps.ContinueTarget | compiler/src/compiler.cpp:481-489 | `continue` jumps to the top of the continue stack, and fails with the same name error as `break` exactly when it is empty |
| GenProps.IfLayout | compiler/src/compiler.cpp:380-401 | an `if` emits the condition, a test of `x1` that skips the jump to the else label, the then branch, a jump to the end, the else label, the else branch (nothing when absent) and the end label; the two labels are fresh and distinct; the condition piece is exactly what `Gen` of the condition appends, and the branch pieces exactly what `Gen` of each branch appends from the state it is generated in |
| GenProps.LoopLayout | compiler/src/compiler.cpp:426-457 | a loop emits the initializer, the continue label, the condition, a test of `x1` that skips the exit jump, the body, the post-step (nothing when absent), the jump back and the break label; the body runs with the loop's labels on top of the stacks, so `continue` skips the post-step; the initializer is generated in a fresh scope, and the initializer, condition and post-step pieces are exactly what `Gen` of each of them appends from the state it is generated in |
| Compiler.PushHelper | compiler/src/compiler.cpp:31-37 | the loop appends exactly the rendering of the lines: labels in column 0, other lines indented by two spaces, each followed by a newline |
| Compiler.Ctx.constructor | compiler/src/compiler.hpp:22-106 | a new context is the initial context |
| Compiler.Ctx.Reset | compiler/src/compiler.cpp:18 | back to the initial context |
| Compiler.Ctx.GetLabel | compiler/src/compiler.cpp:20-23 | bumps `id` and returns the label `Context.GetLabel` gives |
| Compiler.Ctx.PushStrings | compiler/src/compiler.cpp:39-41 | appends the rendered lines to the strings segment only |
| Compiler.Ctx.PushCommands | compiler/src/compiler.cpp:43-45 | appends the rendered lines to the instruction segment only |
| Compiler.Ctx.EnterScope | compiler/src/compiler.cpp:47-51 | pushes a frame starting at the current cursor, as `Context.EnterScope` |
| Compiler.Ctx.ExitScope | compiler/src/compiler.cpp:53-57 | pops the innermost frame unless it is the only one |
| Compiler.Ctx.EnterBreakable | compiler/src/compiler.cpp:59-63 | draws a `break_` label and pushes it |
| Compiler.Ctx.ExitBreakable | compiler/src/compiler.cpp:64-70 | pops the break stack, or fails with a name error when it is empty |
| Compiler.Ctx.EnterContinuable | compiler/src/compiler.cpp:72-76 | draws a `contnue_` label and pushes it |
| Compiler.Ctx.ExitContinuable | compiler/src/compiler.cpp:77-83 | guards on the scope stack; pops the continue stack and crashes when it is empty |
| Compiler.Ctx.UseReg | compiler/src/compiler.cpp:85-88 | increments `usedReg` and returns the new value |
| Compiler.Ctx.DropReg | compiler/src/compiler.cpp:90 | decrements `usedReg` |
| Compiler.Ctx.HasVar | compiler/src/compiler.cpp:92-97 | the search from the innermost frame out returns `Context.HasVar` |
| Compiler.Ctx.GetVar | compiler/src/compiler.cpp:99-107 | the search from the innermost frame out returns `Context.GetVar` |
| Compiler.Ctx.CreateVar | compiler/src/compiler.cpp:110-118 | updates the innermost frame, or fails, as `Context.CreateVar` |
| Compiler.Ctx.Gen | compiler/src/compiler.hpp:111 | dispatches on the node kind and agrees with `Generate.Gen` |
| Compiler.Ctx.GenNumber | compiler/src/compiler.cpp:129-134 | agrees with `Generate.GenNumber` |
| Compiler.Ctx.GenString | compiler/src/compiler.cpp:196-212 | the loop over the decoded bytes leaves the context `Generate.GenString` gives |
| Compiler.Ctx.GenVariable | compiler/src/compiler.cpp:121-127 | agrees with `Generate.GenVariable` |
| Compiler.Ctx.GenBinary | compiler/src/compiler.cpp:226-250 | agrees with `Generate.GenBinary` |
| Compiler.Ctx.GenRightOperand | compiler/src/compiler.cpp:231-249 | agrees with `Generate.GenRightOperand` |
| Compiler.Ctx.BinaryOp | compiler/src/compiler.cpp:233-249 | agrees with `Generate.BinaryOp` |
| Compiler.Ctx.GenUnary | compiler/src/compiler.cpp:270-281 | agrees with `Generate.GenUnary` |
| Compiler.Ctx.GenMacro | compiler/src/compiler.cpp:300-312 | agrees with `Generate.GenMacro` |
| Compiler.Ctx.MacroCall | compiler/src/compiler.cpp:305-311 | agrees with `Generate.MacroCall` |
| Compiler.Ctx.GenAssign | compiler/src/compiler.cpp:327-340 | agrees with `Generate.GenAssign` |
| Compiler.Ctx.GenVarDecl | compiler/src/compiler.cpp:355-365 | agrees with `Generate.GenVarDecl` |
| Compiler.Ctx.GenIf | compiler/src/compiler.cpp:380-401 | agrees with `Generate.GenIf` |
| Compiler.Ctx.GenIfBranches | compiler/src/compiler.cpp:386-400 | agrees with `Generate.GenIfBranches` |
| Compiler.Ctx.GenBetween | compiler/src/compiler.cpp:386-394 | agrees with `Generate.GenBetween` |
| Compiler.Ctx.GenOptionalThen | compiler/src/compiler.cpp:395-400 | agrees with `Generate.GenOptionalThen` |
| Compiler.Ctx.GenOptional | compiler/src/compiler.cpp:395-397 | agrees with `Generate.GenOptional` |
| Compiler.Ctx.GenBlock | compiler/src/compiler.cpp:413-421 | the loop over the statements agrees with `Generate.GenBlock` |
| Compiler.Ctx.GenLoop | compiler/src/compiler.cpp:426-457 | agrees with `Generate.GenLoop` |
| Compiler.Ctx.GenLoopFrame | compiler/src/compiler.cpp:432-455 | agrees with `Generate.GenLoopFrame` |
| Compiler.Ctx.GenLoopBody | compiler/src/compiler.cpp:435-452 | agrees with `Generate.GenLoopBody` |
| Compiler.Ctx.GenLoopTest | compiler/src/compiler.cpp:435-444 | agrees with `Generate.GenLoopTest` |
| Compiler.Ctx.GenBreak | compiler/src/compiler.cpp:470-478 | agrees with `Generate.GenBreak` |
| Compiler.Ctx.GenContinue | compiler/src/compiler.cpp:481-489 | agrees with `Generate.GenContinue` |
| Compiler.Ctx.Compile | compiler/src/compiler.cpp:493-498 | returns `Generate.Compile(block)`, a function of the tree alone, so the same tree always compiles to the same text |

## Left out

- The browser glue `compiler.js` (DOM, Emscripten file system) is I/O and is not part of this model.
- Diagnostic rendering, source locations and `exit(1)` (`error.cpp`, `error.hpp`): an error is the outcome `Err(CompileError(kind, message))`, and the message text is kept.
- The `print` methods of the node classes: debug output to standard error.
- What the emitted assembly and the runtime routines do when run. The preamble is a constant text, and no lemma is about execution.
- `std::regex` inside `unescape` is modelled as a left-to-right scan. Regex matches do not overlap and are found leftmost first, so the scan gives the same result.
- Characters stand for bytes. A data cell is the signed value of the character code modulo 256; the model has no Unicode handling.
- 32-bit arithmetic: `usedReg`, `id`, offsets and literals are unbounded integers. The source would overflow only for absurdly large programs. Integer literals are confined to the 32-bit range by a `newtype`.
- `pushHelper` on an empty line indexes past the string's end. The generator never pushes one. `Context.FormatLine` indents an empty line instead.
- A failed `macros.at` lookup after a passing type check, a `pop_back` on an empty vector, and `getTypeSize(UNKNOWN)` are modelled as the error kind `Crash`. In the source they are uncaught exceptions or undefined behaviour.
- `LoopNode::typeCheck` tests whether the condition is present. Every loop the model builds has one.
- Typing.ExprType and the register lemmas built on it: they require `BindingsTyped` (no binding has type `UNKNOWN`). That holds for every context the generator builds, by `GenProps.CreateVarKeepsTyped` and `GenProps.ScopesKeepTyped`. It is taken as a premise rather than carried as an invariant of a whole compilation.
- Generate.BinaryInstr: it returns the empty string for an operator that is not in the integer table. It is only called for operators that are in it.
- Types.TypeName: the contract states only that names are non-empty. The spellings themselves are its three cases.
- Generate.Gen and the other `Generate` functions: their own contracts state only that the depth of the scope stack is kept. What they do is stated by the `GenEffect` and `GenProps` lemmas and by the `Compiler.Ctx` methods that agree with them.
- Some `gen` methods of the source are split into several functions and methods. Examples are `GenIfBranches`, `GenLoopFrame`, `GenLoopBody`, `GenLoopTest`, `GenRightOperand` and `MacroCall`. Each piece is one contiguous stretch of the source method, and the pieces compose to the whole, in the source's order.
