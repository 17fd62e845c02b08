/** Deleting instructions and rebasing everything that names one by distance. */
module Rewrite {
  import opened Bytecode
  import opened Wrappers

  // ----- The index map -----

  /** How many of the first `i` instructions are kept: the new index of `i`. */
  function NewIndex(remove: seq<bool>, i: nat): nat
    requires i <= |remove|
  {
    if i == 0 then 0 else NewIndex(remove, i - 1) + (if remove[i - 1] then 0 else 1)
  }

  function IndexMap(remove: seq<bool>): seq<nat> {
    seq(|remove| + 1, i requires 0 <= i <= |remove| => NewIndex(remove, i))
  }

  /** The map is monotone, contracts distances, and separates a kept
      instruction from everything after it. */
  lemma {:induction false} NewIndexSpacing(remove: seq<bool>, i: nat, j: nat)
    requires i <= j <= |remove|
    ensures NewIndex(remove, i) <= NewIndex(remove, j) <= NewIndex(remove, i) + (j - i)
    ensures i < j && !remove[i] ==> NewIndex(remove, i) < NewIndex(remove, j)
    decreases j - i
  {
    if i < j {
      NewIndexSpacing(remove, i + 1, j);
    }
  }

  lemma NewIndexStarts(remove: seq<bool>)
    ensures NewIndex(remove, 0) == 0
  {
  }

  lemma NewIndexGrows(remove: seq<bool>, i: nat)
    requires i < |remove|
    ensures NewIndex(remove, i + 1) == NewIndex(remove, i) + (if remove[i] then 0 else 1)
  {
  }

  method BuildIndexMap(remove: seq<bool>) returns (m: seq<nat>)
    ensures m == IndexMap(remove)
  {
    hide NewIndex;
    m := [];
    var next := 0;
    NewIndexStarts(remove);
    for i := 0 to |remove|
      invariant |m| == i && next == NewIndex(remove, i)
      invariant forall k :: 0 <= k < i ==> m[k] == NewIndex(remove, k)
    {
      m := m + [next];
      NewIndexGrows(remove, i);
      if !remove[i] {
        next := next + 1;
      }
    }
    m := m + [next];
  }

  // ----- Rebasing one operand; None where the source panics -----

  function NewOffset(m: seq<nat>, i: nat, offset: I32): Option<int>
    requires i < |m|
  {
    var target := RelativeTarget(i, offset);
    if 0 <= target < |m| then
      var there: int, here: int := m[target], m[i];
      Some(there - here)
    else None
  }

  function Fit32(x: int): Option<I32> {
    if -0x8000_0000 <= x < 0x8000_0000 then Some(x) else None
  }

  function Fit16(x: int): Option<I16> {
    if -0x8000 <= x < 0x8000 then Some(x) else None
  }

  function Fit8(x: int): Option<I8> {
    if -0x80 <= x < 0x80 then Some(x) else None
  }

  /** A rebased offset keeps its direction and never gets longer, so it fits
      the width it had. */
  lemma OffsetsNeverGrow(remove: seq<bool>, i: nat, offset: I32)
    requires i < |remove| && !remove[i] && 0 <= RelativeTarget(i, offset) <= |remove|
    ensures NewOffset(IndexMap(remove), i, offset).Some?
    ensures var new_ := NewOffset(IndexMap(remove), i, offset).value;
            && (offset > 0 ==> 0 < new_ <= offset)
            && (offset == 0 ==> new_ == 0)
            && (offset < 0 ==> offset <= new_ <= 0)
  {
    var target := RelativeTarget(i, offset);
    if offset > 0 {
      NewIndexSpacing(remove, i, target);
    } else {
      NewIndexSpacing(remove, target, i);
    }
  }

  function RebaseOffsets(m: seq<nat>, i: nat, offsets: seq<I32>): Option<seq<I32>>
    requires i < |m|
  {
    if offsets == [] then Some([])
    else
      var rest :- RebaseOffsets(m, i, offsets[..|offsets| - 1]);
      var wide :- NewOffset(m, i, offsets[|offsets| - 1]);
      var last :- Fit32(wide);
      Some(rest + [last])
  }

  function RebaseTable(m: seq<nat>, i: nat, table: SwitchTable): Option<SwitchTable>
    requires i < |m|
  {
    var targets :- RebaseOffsets(m, i, table.targets);
    var wide :- NewOffset(m, i, table.default);
    var default :- Fit32(wide);
    Some(SwitchTable(targets, default))
  }

  /** The instruction with its own offsets rebased; a switch keeps its table index. */
  function RebaseInstruction(m: seq<nat>, i: nat, instruction: Instruction): Option<Instruction>
    requires i < |m|
  {
    match instruction
    case Jump(op, offset) =>
      var wide :- NewOffset(m, i, offset);
      var fit :- Fit32(wide);
      Some(Jump(op, fit))
    case ShortJump(op, short) =>
      var wide :- NewOffset(m, i, short);
      var fit :- Fit16(wide);
      Some(ShortJump(op, fit))
    case Branch(op, offset) =>
      var wide :- NewOffset(m, i, offset);
      var fit :- Fit32(wide);
      Some(Branch(op, fit))
    case ShortBranch(op, short) =>
      var wide :- NewOffset(m, i, short);
      var fit :- Fit16(wide);
      Some(ShortBranch(op, fit))
    case NearBranch(op, near) =>
      var wide :- NewOffset(m, i, near);
      var fit :- Fit8(wide);
      Some(NearBranch(op, fit))
    case PatternBranch(op, onFalse, onDefault) =>
      var wideFalse :- NewOffset(m, i, onFalse);
      var fitFalse :- Fit16(wideFalse);
      var wideDefault :- NewOffset(m, i, onDefault);
      var fitDefault :- Fit16(wideDefault);
      Some(PatternBranch(op, fitFalse, fitDefault))
    case Straight(_) | Switch(_, _) | ForeachNext(_) | Terminator(_) => Some(instruction)
  }

  // ----- The whole rewrite, as a fold in code order -----

  datatype Output = Output(code: seq<Instruction>, spans: seq<nat>, tables: seq<SwitchTable>)

  /** The output after the first `k` instructions. A switch rebases its table
      where it stands, so a table met twice is rebased twice. */
  function Emitted(chunk: Chunk, remove: seq<bool>, m: seq<nat>, k: nat): Option<Output>
    requires k <= |chunk.code| == |chunk.spans| == |remove| && |m| == |remove| + 1
  {
    if k == 0 then Some(Output([], [], chunk.switchTables))
    else
      var prev :- Emitted(chunk, remove, m, k - 1);
      if remove[k - 1] then Some(prev) else EmitOne(chunk, m, k - 1, prev)
  }

  function EmitOne(chunk: Chunk, m: seq<nat>, i: nat, prev: Output): Option<Output>
    requires i < |chunk.code| == |chunk.spans| && i < |m|
  {
    var instruction :- RebaseInstruction(m, i, chunk.code[i]);
    var tables :- RebaseTableOf(m, i, chunk.code[i], prev.tables);
    Some(Output(prev.code + [instruction], prev.spans + [chunk.spans[i]], tables))
  }

  function RebaseTableOf(m: seq<nat>, i: nat, instruction: Instruction, tables: seq<SwitchTable>)
    : Option<seq<SwitchTable>>
    requires i < |m|
  {
    if !instruction.Switch? then Some(tables)
    else if instruction.table >= |tables| then None
    else
      var table :- RebaseTable(m, i, tables[instruction.table]);
      Some(tables[instruction.table := table])
  }

  function RebaseCatch(m: seq<nat>, entry: CatchEntry): Option<CatchEntry> {
    if entry.start < |m| && entry.end < |m| && entry.handler < |m|
    then Some(CatchEntry(m[entry.start], m[entry.end], m[entry.handler], entry.clause))
    else None
  }

  function RebaseCatches(m: seq<nat>, entries: seq<CatchEntry>): (r: Option<seq<CatchEntry>>)
    ensures r.Some? ==> |r.value| == |entries| &&
                        forall k :: 0 <= k < |entries| ==> RebaseCatch(m, entries[k]) == Some(r.value[k])
  {
    if entries == [] then Some([])
    else
      var rest :- RebaseCatches(m, entries[..|entries| - 1]);
      var last :- RebaseCatch(m, entries[|entries| - 1]);
      Some(rest + [last])
  }

  function Compacted(chunk: Chunk, remove: seq<bool>): Option<Chunk>
    requires |chunk.code| == |chunk.spans| == |remove|
  {
    var m := IndexMap(remove);
    var out :- Emitted(chunk, remove, m, |chunk.code|);
    var catches :- RebaseCatches(m, chunk.catchTable);
    Some(Chunk(out.code, out.spans, out.tables, catches))
  }

  // ----- The rewrite in place -----

  class ChunkCell {
    var code: seq<Instruction>
    var spans: seq<nat>
    var switchTables: seq<SwitchTable>
    var catchTable: seq<CatchEntry>

    ghost function Value(): Chunk
      reads this
    {
      Chunk(code, spans, switchTables, catchTable)
    }

    constructor (chunk: Chunk)
      ensures Value() == chunk
    {
      code, spans := chunk.code, chunk.spans;
      switchTables, catchTable := chunk.switchTables, chunk.catchTable;
    }

    /** Keeps the instructions not marked and rebases whatever names one.
        `ok` is false exactly where the source panics. */
    method Compact(remove: seq<bool>) returns (ok: bool)
      requires |code| == |spans| == |remove|
      modifies this
      ensures match Compacted(old(Value()), remove)
              case None => !ok
              case Some(chunk) => ok && Value() == chunk
    {
      ghost var before := Value();
      var oldCode, oldSpans := code, spans;
      code, spans := [], [];
      var m := BuildIndexMap(remove);
      ok := true;
      for i := 0 to |oldCode|
        invariant catchTable == before.catchTable && ok
        invariant Emitted(before, remove, m, i) == Some(Output(code, spans, switchTables))
      {
        if !remove[i] {
          var instruction := RebaseInstruction(m, i, oldCode[i]);
          if instruction.None? {
            ok := false;
            EmittedFails(before, remove, m, i);
            return;
          }
          if oldCode[i].Switch? {
            ok := RebaseSwitchTable(oldCode[i].table, i, m);
            if !ok {
              EmittedFails(before, remove, m, i);
              return;
            }
          }
          code := code + [instruction.value];
          spans := spans + [oldSpans[i]];
        }
      }
      ok := RebaseCatchTable(m);
    }

    /** Rebases one table where it stands. */
    method RebaseSwitchTable(table: nat, i: nat, m: seq<nat>) returns (ok: bool)
      requires i < |m|
      modifies this`switchTables
      ensures match RebaseTableOf(m, i, Switch(0, table), old(switchTables))
              case None => !ok
              case Some(tables) => ok && switchTables == tables
    {
      if table >= |switchTables| {
        return false;
      }
      var SwitchTable(targets, default) := switchTables[table];
      var rebased: seq<I32> := [];
      for k := 0 to |targets|
        invariant RebaseOffsets(m, i, targets[..k]) == Some(rebased)
      {
        assert targets[..k + 1][..k] == targets[..k];
        var wide := NewOffset(m, i, targets[k]);
        var fit := if wide.Some? then Fit32(wide.value) else None;
        if fit.None? {
          RebaseFails(m, i, targets, k);
          return false;
        }
        rebased := rebased + [fit.value];
      }
      assert targets[..|targets|] == targets;
      var wide := NewOffset(m, i, default);
      var fit := if wide.Some? then Fit32(wide.value) else None;
      if fit.None? {
        return false;
      }
      switchTables := switchTables[table := SwitchTable(rebased, fit.value)];
      return true;
    }

    method RebaseCatchTable(m: seq<nat>) returns (ok: bool)
      modifies this`catchTable
      ensures match RebaseCatches(m, old(catchTable))
              case None => !ok
              case Some(entries) => ok && catchTable == entries
    {
      var entries: seq<CatchEntry> := [];
      for k := 0 to |catchTable|
        invariant catchTable == old(catchTable)
        invariant RebaseCatches(m, catchTable[..k]) == Some(entries)
      {
        assert catchTable[..k + 1][..k] == catchTable[..k];
        var entry := RebaseCatch(m, catchTable[k]);
        if entry.None? {
          CatchFails(m, catchTable, k);
          return false;
        }
        entries := entries + [entry.value];
      }
      assert catchTable[..|catchTable|] == catchTable;
      catchTable := entries;
      return true;
    }
  }

  // ----- A panic ends the rewrite -----

  lemma {:induction false} RebaseFails(m: seq<nat>, i: nat, offsets: seq<I32>, k: nat)
    requires i < |m| && k < |offsets| && RebaseOffsets(m, i, offsets[..k + 1]).None?
    ensures RebaseOffsets(m, i, offsets).None?
    decreases |offsets|
  {
    if k + 1 == |offsets| {
      assert offsets[..k + 1] == offsets;
    } else {
      var shorter := offsets[..|offsets| - 1];
      assert shorter[..k + 1] == offsets[..k + 1];
      RebaseFails(m, i, shorter, k);
    }
  }

  lemma {:induction false} CatchFails(m: seq<nat>, entries: seq<CatchEntry>, k: nat)
    requires k < |entries| && RebaseCatches(m, entries[..k + 1]).None?
    ensures RebaseCatches(m, entries).None?
    decreases |entries|
  {
    if k + 1 == |entries| {
      assert entries[..k + 1] == entries;
    } else {
      var shorter := entries[..|entries| - 1];
      assert shorter[..k + 1] == entries[..k + 1];
      CatchFails(m, shorter, k);
    }
  }

  lemma {:induction false} EmittedFails(chunk: Chunk, remove: seq<bool>, m: seq<nat>, k: nat)
    requires k < |chunk.code| == |chunk.spans| == |remove| && |m| == |remove| + 1
    requires Emitted(chunk, remove, m, k + 1).None?
    ensures Emitted(chunk, remove, m, |chunk.code|).None?
    decreases |chunk.code| - k
  {
    if k + 1 < |chunk.code| {
      EmittedFails(chunk, remove, m, k + 1);
    }
  }
}
