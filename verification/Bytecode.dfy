/** The bytecode of one function, reduced to what control flow can see: each
    instruction keeps an opaque opcode (its kind and register operands) and the
    operands that name other instructions. */
module Bytecode {

  type I8 = x: int | -0x80 <= x < 0x80
  type I16 = x: int | -0x8000 <= x < 0x8000
  type I32 = x: int | -0x8000_0000 <= x < 0x8000_0000

  type Opcode = nat

  datatype Instruction =
    | Straight(op: Opcode)
    | Jump(op: Opcode, offset: I32)
    | ShortJump(op: Opcode, short: I16)
    | Branch(op: Opcode, offset: I32)
    | ShortBranch(op: Opcode, short: I16)
    | NearBranch(op: Opcode, near: I8)
    | PatternBranch(op: Opcode, onFalse: I16, onDefault: I16)
    | Switch(op: Opcode, table: nat)
    | ForeachNext(op: Opcode)
    | Terminator(op: Opcode)

  /** The arms of one switch, as offsets from the instruction that uses them. */
  datatype SwitchTable = SwitchTable(targets: seq<I32>, default: I32)

  datatype CatchEntry = CatchEntry(start: nat, end: nat, handler: nat, clause: nat)

  datatype Chunk = Chunk(
    code: seq<Instruction>,
    spans: seq<nat>,
    switchTables: seq<SwitchTable>,
    catchTable: seq<CatchEntry>)

  /** Where an offset taken at `source` leads; negative when the source would panic. */
  function RelativeTarget(source: nat, offset: I32): int {
    source + offset
  }

  function TableTargets(source: nat, table: SwitchTable): (s: seq<int>)
    ensures |s| == |table.targets| + 1
  {
    seq(|table.targets|, k requires 0 <= k < |table.targets| => RelativeTarget(source, table.targets[k]))
    + [RelativeTarget(source, table.default)]
  }

  /** The edges that do not come from an offset. */
  function Fallthroughs(instruction: Instruction, i: nat): seq<int> {
    match instruction
    case Straight(_) | Branch(_, _) | ShortBranch(_, _) | NearBranch(_, _) | PatternBranch(_, _, _) => [i + 1]
    case ForeachNext(_) => [i + 1, i + 2]
    case Jump(_, _) | ShortJump(_, _) | Switch(_, _) | Terminator(_) => []
  }

  /** The edges that come from offsets. */
  function TargetsOf(instruction: Instruction, i: nat, tables: seq<SwitchTable>): seq<int> {
    match instruction
    case Jump(_, offset) => [RelativeTarget(i, offset)]
    case ShortJump(_, short) => [RelativeTarget(i, short)]
    case Branch(_, offset) => [RelativeTarget(i, offset)]
    case ShortBranch(_, short) => [RelativeTarget(i, short)]
    case NearBranch(_, near) => [RelativeTarget(i, near)]
    case PatternBranch(_, onFalse, onDefault) => [RelativeTarget(i, onFalse), RelativeTarget(i, onDefault)]
    case Switch(_, table) => if table < |tables| then TableTargets(i, tables[table]) else []
    case Straight(_) | ForeachNext(_) | Terminator(_) => []
  }

  function Targets(chunk: Chunk, i: nat): seq<int>
    requires i < |chunk.code|
  {
    TargetsOf(chunk.code[i], i, chunk.switchTables)
  }

  /** The instructions that may run after the one at `i`, in edge order. */
  function Successors(chunk: Chunk, i: nat): seq<int>
    requires i < |chunk.code|
  {
    Fallthroughs(chunk.code[i], i) + Targets(chunk, i)
  }

  /** Whether execution may leave the straight line after this instruction. */
  predicate BranchesOrTerminates(instruction: Instruction) {
    !instruction.Straight?
  }
}
