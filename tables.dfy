/// The fixed tables of the back end: the integer operator table, the macro
/// table and the three initial text segments (runtime preamble, string data
/// header, instruction header).
module Tables {
  import opened Types

  /// `bin_int_ops`: source operator to (instruction mnemonic, operands
  /// swapped); `None` for an operator that is not in the table.
  function IntOp(op: string): Option<(string, bool)> {
    match op
    case "+" => Some(("add", false))
    case "-" => Some(("sub", false))
    case "^" => Some(("xor", false))
    case ">>>" => Some(("slr", false))
    case ">>" => Some(("sra", false))
    case "||" => Some(("or", false))
    case "&&" => Some(("and", false))
    case "*" => Some(("mul", false))
    case "/" => Some(("div", false))
    case "%" => Some(("rem", false))
    case "<<" => Some(("sll", false))
    case "<" => Some(("slt", false))
    case "==" => Some(("seq", false))
    case "!=" => Some(("sne", false))
    case ">=" => Some(("sge", false))
    case "<=" => Some(("sge", true))
    case ">" => Some(("slt", true))
    case _ => None
  }

  /// One entry of the macro table: the runtime routine to call and the type of
  /// the value it leaves behind (`UNKNOWN` when it leaves none).
  datatype MacroEntry = MacroEntry(routine: string, result: Type)

  /// `macros`: macro name, then argument type, to a runtime routine.
  const MACROS: map<string, map<Type, MacroEntry>> := map[
    "print!" := map[I32 := MacroEntry("print_i32", UNKNOWN), STR := MacroEntry("print_str", UNKNOWN)],
    "len!" := map[STR := MacroEntry("len_str", I32)],
    "print_char!" := map[I32 := MacroEntry("print_char", UNKNOWN)]
  ]

  /// The lookup `MacroNode::typeCheck` performs: an unknown name and an
  /// unsupported argument type are both name errors.
  function MacroLookup(name: string, t: Type): Result<MacroEntry> {
    if name !in MACROS then
      Fail(NameError, "Unknown macro '" + name + "'")
    else if t !in MACROS[name] then
      Fail(NameError, "Macro '" + name + "' doesn't support type `" + TypeName(t))
    else
      Ok(MACROS[name][t])
  }

  /// Whether the macro of this name leaves a value in a fresh register.
  predicate MacroYieldsValue(name: string) {
    name == "len!"
  }

  /// The macro table in full: which (name, argument type) pairs resolve, and
  /// that only `len!` leaves a value behind.
  lemma MacroLookupTable(name: string, t: Type)
    ensures MacroLookup(name, t).Ok? <==>
      (name == "print!" && t != UNKNOWN) || (name == "len!" && t == STR) || (name == "print_char!" && t == I32)
    ensures MacroLookup(name, t).Ok? ==> (MacroLookup(name, t).value.result != UNKNOWN <==> MacroYieldsValue(name))
    ensures MacroLookup(name, t).Err? ==> MacroLookup(name, t).error.kind == NameError
  {
  }

  /// An entry of the table leaves a value exactly for `len!`.
  lemma MacroEntryResult(name: string, t: Type)
    requires name in MACROS && t in MACROS[name]
    ensures MACROS[name][t].result != UNKNOWN <==> MacroYieldsValue(name)
  {
    MacroLookupTable(name, t);
  }

  /// Every routine the macro table can resolve to is a label of the preamble.
  lemma MacroRoutinesDefined(name: string, t: Type)
    requires MacroLookup(name, t).Ok?
    ensures MacroLookup(name, t).value.routine + ":" in PREAMBLE_LINES
  {
    var r := MacroLookup(name, t).value.routine;
    if r == "print_i32" {
      assert r + ":" == PRINT_I32_LINES[0];
    } else if r == "print_str" {
      assert r + ":" == PRINT_STR_LINES[0];
    } else if r == "print_char" {
      assert r + ":" == PRINT_CHAR_LINES[0];
    } else {
      assert r + ":" == LEN_STR_LINES[0];
    }
  }

  /// The entry jump and the macro banner.
  const ENTRY_LINES: seq<string> := [
    "jal x0, main",
    "",
    "# BEGIN MACROS"
  ]

  /// `print_i32`: prints the integer in `x1` in decimal, then a newline.
  const PRINT_I32_LINES: seq<string> := [
    "print_i32:",
    "  addi x10, x0, 10",
    "  addi x11, x0, 1023",
    "  addi x12, x1, 0",
    "  addi x13, x0, 0",
    "  addi x14, x11, 0",
    "  bge  x12, x0, producer_loop",
    "  addi x13, x0, 1",
    "  sub x12, x0, x12",
    "",
    "producer_loop:",
    "  div x15, x12, x10",
    "  rem x16, x12, x10",
    "  addi x20, x16, 48",
    "  sw x14, 0, x20",
    "  addi x14, x14, -1",
    "  addi x12, x15, 0",
    "  bne x12, x0, producer_loop",
    "",
    "  beq x13, x0, after_minus",
    "  addi x20, x0, 45",
    "  ewrite x20",
    "",
    "after_minus:",
    "  addi x14, x14, 1",
    "  lw x20, x14, 0",
    "  ewrite x20",
    "  bne x14, x11, after_minus",
    "",
    "  addi x20, x0, 10",
    "  ewrite x20",
    "  jalr x0, x31, 0",
    ""
  ]

  /// `print_str`: prints the length-prefixed string at address `x1`.
  const PRINT_STR_LINES: seq<string> := [
    "print_str:",
    "  lw x10, x1, 0 # load len to x10",
    "  addi x1, x1, 1 # move x1 ptr to string begin ",
    "  addi x3, x0, 1 # load 1 to x3",
    "next_char:",
    "  beq x10, x0, print_str_end # we are done",
    "  lw x2, x1, 0 # load char",
    "  ewrite x2",
    "  addi x1, x1, 1",
    "  sub x10, x10, x3",
    "  jal x0, next_char",
    "print_str_end:",
    "  jalr x0, x31, 0 # return",
    ""
  ]

  /// `print_char`: prints the character code in `x1`.
  const PRINT_CHAR_LINES: seq<string> := [
    "print_char:",
    "  ewrite x1",
    "  jalr x0, x31, 0 # return",
    ""
  ]

  /// `len_str`: loads the length cell of the string at `x1` into `x1`.
  const LEN_STR_LINES: seq<string> := [
    "len_str:",
    "  lw x1, x1, 0 # load len to x1",
    "  jalr x0, x31, 0 # return",
    ""
  ]

  /// The closing banner.
  const END_LINES: seq<string> := [
    "# END MACROS",
    ""
  ]

  /// The lines of the runtime preamble `Ctx::prefix` (after its leading
  /// newline): the jump to `main`, then the bodies of the built-in routines.
  const PREAMBLE_LINES: seq<string> :=
    ENTRY_LINES + PRINT_I32_LINES + PRINT_STR_LINES + PRINT_CHAR_LINES + LEN_STR_LINES + END_LINES

  /// Lines joined, each followed by a newline.
  function Lines(ls: seq<string>): string {
    if ls == [] then "" else ls[0] + "\n" + Lines(ls[1..])
  }

  /// The three segments of a fresh context.
  const PREFIX: string := "\n" + Lines(PREAMBLE_LINES)
  const STRINGS_HEADER: string := "\n# BEGIN STRINGS\n"
  const MAIN_HEADER: string := "\n# BEGIN MAIN\nmain:\n"

  /// The preamble's first instruction is the jump to the entry label, and the
  /// instruction segment starts out ending with that label.
  lemma SegmentEntryPoints()
    ensures PREAMBLE_LINES[0] == "jal x0, main"
    ensures PREFIX == "\n" + PREAMBLE_LINES[0] + "\n" + Lines(PREAMBLE_LINES[1..])
    ensures MAIN_HEADER[|MAIN_HEADER| - 6..] == "main:\n"
  {
  }

  /// The first address handed out to variables (`stack_begin`).
  const STACK_BEGIN: int := 0x800
}
