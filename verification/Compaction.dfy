/** What compaction preserves: the compacted code runs in step with the original
    whose removed slots do nothing. */
module Compaction {
  import opened Bytecode
  import opened Control
  import opened Rewrite
  import opened Wrappers

  // ----- What the optimizer guarantees of the chunk -----

  ghost predicate Kept(remove: seq<bool>, i: nat) {
    i < |remove| && !remove[i]
  }

  ghost predicate Parallel(chunk: Chunk, remove: seq<bool>) {
    |chunk.code| == |chunk.spans| == |remove|
  }

  /** Every target of a kept instruction and every catch bound is an index of
      the chunk or one past its end. */
  ghost predicate InRange(chunk: Chunk, remove: seq<bool>) {
    && Parallel(chunk, remove)
    && (forall i: nat :: Kept(remove, i) ==> TargetsInRange(chunk, i))
    && (forall k :: 0 <= k < |chunk.catchTable| ==> CatchInRange(chunk, chunk.catchTable[k]))
  }

  ghost predicate TargetsInRange(chunk: Chunk, i: nat)
    requires i < |chunk.code|
  {
    && (chunk.code[i].Switch? ==> chunk.code[i].table < |chunk.switchTables|)
    && Within(Targets(chunk, i), |chunk.code|)
  }

  ghost predicate Within(s: seq<int>, n: nat) {
    forall k :: 0 <= k < |s| ==> 0 <= s[k] <= n
  }

  ghost predicate CatchInRange(chunk: Chunk, entry: CatchEntry) {
    entry.start <= |chunk.code| && entry.end <= |chunk.code| && entry.handler <= |chunk.code|
  }

  ghost predicate SwitchesOn(chunk: Chunk, i: nat, table: nat) {
    i < |chunk.code| && chunk.code[i].Switch? && chunk.code[i].table == table
  }

  /** No two kept instructions switch on the same table. */
  ghost predicate Unshared(chunk: Chunk, remove: seq<bool>) {
    forall i: nat, j: nat, t: nat ::
      Kept(remove, i) && Kept(remove, j) && SwitchesOn(chunk, i, t) && SwitchesOn(chunk, j, t) ==> i == j
  }

  /** The instruction a kept foreach-next skips over is kept too. */
  ghost predicate ForeachIntact(chunk: Chunk, remove: seq<bool>)
    requires Parallel(chunk, remove)
  {
    forall i: nat :: Kept(remove, i) && chunk.code[i].ForeachNext? ==> Kept(remove, i + 1)
  }

  // ----- The rewrite of one kept instruction -----

  lemma OffsetRebases(remove: seq<bool>, i: nat, offset: I32)
    requires Kept(remove, i) && 0 <= RelativeTarget(i, offset) <= |remove|
    ensures NewOffset(IndexMap(remove), i, offset).Some?
    ensures var new_ := NewOffset(IndexMap(remove), i, offset).value;
            && NewIndex(remove, i) + new_ == NewIndex(remove, RelativeTarget(i, offset))
            && (if offset > 0 then 0 < new_ <= offset else offset <= new_ <= 0)
  {
    OffsetsNeverGrow(remove, i, offset);
  }

  lemma {:induction false} OffsetsRebase(remove: seq<bool>, i: nat, offsets: seq<I32>)
    requires Kept(remove, i)
    requires forall k :: 0 <= k < |offsets| ==> 0 <= RelativeTarget(i, offsets[k]) <= |remove|
    ensures RebaseOffsets(IndexMap(remove), i, offsets).Some?
    ensures var new_ := RebaseOffsets(IndexMap(remove), i, offsets).value;
            && |new_| == |offsets|
            && (forall k :: 0 <= k < |offsets| ==>
                  RelativeTarget(NewIndex(remove, i), new_[k]) == NewIndex(remove, RelativeTarget(i, offsets[k])))
    decreases |offsets|
  {
    if offsets != [] {
      OffsetsRebase(remove, i, offsets[..|offsets| - 1]);
      OffsetsNeverGrow(remove, i, offsets[|offsets| - 1]);
    }
  }

  lemma TableRebases(remove: seq<bool>, i: nat, table: SwitchTable)
    requires Kept(remove, i)
    requires Within(TableTargets(i, table), |remove|)
    ensures RebaseTable(IndexMap(remove), i, table).Some?
    ensures Mapped(remove, TableTargets(i, table),
                   TableTargets(NewIndex(remove, i), RebaseTable(IndexMap(remove), i, table).value))
  {
    forall k | 0 <= k < |table.targets|
      ensures 0 <= RelativeTarget(i, table.targets[k]) <= |remove|
    {
      assert TableTargets(i, table)[k] == RelativeTarget(i, table.targets[k]);
    }
    assert TableTargets(i, table)[|table.targets|] == RelativeTarget(i, table.default);
    OffsetsRebase(remove, i, table.targets);
    OffsetsNeverGrow(remove, i, table.default);
  }

  /** `new_` lists the new indices of `old_`, in order. */
  ghost predicate Mapped(remove: seq<bool>, old_: seq<int>, new_: seq<int>) {
    && |new_| == |old_|
    && (forall k :: 0 <= k < |old_| ==> 0 <= old_[k] <= |remove| && new_[k] == NewIndex(remove, old_[k]))
  }

  /** Everything about an instruction but its offsets. */
  function Shape(instruction: Instruction): Instruction {
    match instruction
    case Jump(op, _) => Jump(op, 0)
    case ShortJump(op, _) => ShortJump(op, 0)
    case Branch(op, _) => Branch(op, 0)
    case ShortBranch(op, _) => ShortBranch(op, 0)
    case NearBranch(op, _) => NearBranch(op, 0)
    case PatternBranch(op, _, _) => PatternBranch(op, 0, 0)
    case Straight(_) | Switch(_, _) | ForeachNext(_) | Terminator(_) => instruction
  }

  ghost predicate Rebased(remove: seq<bool>, i: nat, instruction: Instruction, tables: seq<SwitchTable>)
    requires i < |remove|
  {
    var new_ := RebaseInstruction(IndexMap(remove), i, instruction);
    && new_.Some? && Shape(new_.value) == Shape(instruction)
    && Mapped(remove, TargetsOf(instruction, i, tables), TargetsOf(new_.value, NewIndex(remove, i), tables))
  }

  lemma JumpRebases(remove: seq<bool>, i: nat, instruction: Instruction, tables: seq<SwitchTable>)
    requires Kept(remove, i) && (instruction.Jump? || instruction.ShortJump? || instruction.PatternBranch?)
    requires Within(TargetsOf(instruction, i, tables), |remove|)
    ensures Rebased(remove, i, instruction, tables)
  {
    assert i < |IndexMap(remove)|;
    hide NewOffset, NewIndex, IndexMap, TableTargets;
    var targets := TargetsOf(instruction, i, tables);
    assert 0 <= targets[0] <= |remove|;
    assert |targets| > 1 ==> 0 <= targets[1] <= |remove|;
    match instruction {
      case Jump(_, offset) => OffsetRebases(remove, i, offset);
      case ShortJump(_, short) => OffsetRebases(remove, i, short);
      case PatternBranch(_, onFalse, onDefault) =>
        OffsetRebases(remove, i, onFalse);
        OffsetRebases(remove, i, onDefault);
    }
  }

  lemma BranchRebases(remove: seq<bool>, i: nat, instruction: Instruction, tables: seq<SwitchTable>)
    requires Kept(remove, i) && (instruction.Branch? || instruction.ShortBranch? || instruction.NearBranch?)
    requires Within(TargetsOf(instruction, i, tables), |remove|)
    ensures Rebased(remove, i, instruction, tables)
  {
    assert i < |IndexMap(remove)|;
    hide NewOffset, NewIndex, IndexMap, TableTargets;
    assert 0 <= TargetsOf(instruction, i, tables)[0] <= |remove|;
    match instruction {
      case Branch(_, offset) => OffsetRebases(remove, i, offset);
      case ShortBranch(_, short) => OffsetRebases(remove, i, short);
      case NearBranch(_, near) => OffsetRebases(remove, i, near);
    }
  }

  /** None of the width checks can fail, and the rebased instruction differs
      only in offsets that lead to the moved targets. */
  lemma InstructionRebases(remove: seq<bool>, i: nat, instruction: Instruction, tables: seq<SwitchTable>)
    requires Kept(remove, i) && !instruction.Switch?
    requires Within(TargetsOf(instruction, i, tables), |remove|)
    ensures Rebased(remove, i, instruction, tables)
  {
    if instruction.Jump? || instruction.ShortJump? || instruction.PatternBranch? {
      JumpRebases(remove, i, instruction, tables);
    } else if instruction.Branch? || instruction.ShortBranch? || instruction.NearBranch? {
      BranchRebases(remove, i, instruction, tables);
    }
  }

  // ----- The rewrite of the whole chunk -----

  ghost predicate CodeEmitted(chunk: Chunk, remove: seq<bool>, k: nat, out: Output)
    requires Parallel(chunk, remove) && k <= |remove|
  {
    && |out.code| == |out.spans| == NewIndex(remove, k)
    && (forall i: nat :: Kept(remove, i) && i < k ==> PlacedAt(chunk, remove, i, out))
  }

  ghost predicate PlacedAt(chunk: Chunk, remove: seq<bool>, i: nat, out: Output)
    requires Parallel(chunk, remove) && i < |remove|
  {
    && NewIndex(remove, i) < |out.code| == |out.spans|
    && RebaseInstruction(IndexMap(remove), i, chunk.code[i]) == Some(out.code[NewIndex(remove, i)])
    && out.spans[NewIndex(remove, i)] == chunk.spans[i]
  }

  /** The offsets of a table, the default last. */
  function Slots(table: SwitchTable): seq<int> {
    table.targets + [table.default]
  }

  /** One rebase of an offset taken at `i`. */
  ghost function Shifted(remove: seq<bool>, i: nat, offset: int): int {
    if i <= |remove| && 0 <= i + offset <= |remove| then NewIndex(remove, i + offset) - NewIndex(remove, i) else offset
  }

  /** An offset of table `t` after the first `k` instructions: rebased once for
      each kept instruction among them that switches on the table. */
  ghost function Iterated(chunk: Chunk, remove: seq<bool>, t: nat, offset: int, k: nat): int {
    if k == 0 then offset
    else
      var before := Iterated(chunk, remove, t, offset, k - 1);
      if Uses(chunk, remove, k - 1, t) then Shifted(remove, k - 1, before) else before
  }

  /** `i` is a kept instruction that switches on table `t`. */
  ghost predicate Uses(chunk: Chunk, remove: seq<bool>, i: nat, t: nat) {
    Kept(remove, i) && SwitchesOn(chunk, i, t)
  }

  /** Same direction and no longer. */
  ghost predicate NoLonger(new_: int, offset: int) {
    if offset > 0 then 0 < new_ <= offset else offset <= new_ <= 0
  }

  lemma ShiftShrinks(remove: seq<bool>, i: nat, offset: int)
    requires Kept(remove, i) && 0 <= i + offset <= |remove|
    ensures NoLonger(Shifted(remove, i, offset), offset)
  {
    if offset > 0 {
      NewIndexSpacing(remove, i, i + offset);
    } else {
      NewIndexSpacing(remove, i + offset, i);
    }
  }

  /** Every kept user of the table reaches the offset's target. */
  ghost predicate Reaches(chunk: Chunk, remove: seq<bool>, t: nat, offset: int) {
    forall i: nat :: Uses(chunk, remove, i, t) ==> 0 <= i + offset <= |remove|
  }

  /** However often it is rebased, an offset stays in range and only shrinks. */
  lemma {:induction false} IterationShrinks(
    chunk: Chunk, remove: seq<bool>, t: nat, offset: int, j: nat, k: nat)
    requires Reaches(chunk, remove, t, offset) && j <= k
    ensures NoLonger(Iterated(chunk, remove, t, offset, k), offset)
    ensures NoLonger(Iterated(chunk, remove, t, offset, k), Iterated(chunk, remove, t, offset, j))
    decreases k
  {
    if k > 0 {
      IterationShrinks(chunk, remove, t, offset, if j < k then j else j - 1, k - 1);
      if Uses(chunk, remove, k - 1, t) {
        ShiftShrinks(remove, k - 1, Iterated(chunk, remove, t, offset, k - 1));
      }
    }
  }

  ghost predicate TableIterated(chunk: Chunk, remove: seq<bool>, k: nat, t: nat, table: SwitchTable)
    requires t < |chunk.switchTables|
  {
    var before := Slots(chunk.switchTables[t]);
    && |Slots(table)| == |before|
    && (forall a :: 0 <= a < |before| ==> Slots(table)[a] == Iterated(chunk, remove, t, before[a], k))
  }

  ghost predicate TablesIterated(chunk: Chunk, remove: seq<bool>, k: nat, tables: seq<SwitchTable>) {
    && |tables| == |chunk.switchTables|
    && (forall t: nat :: t < |tables| ==> TableIterated(chunk, remove, k, t, tables[t]))
  }

  lemma {:induction false} EmissionSucceeds(chunk: Chunk, remove: seq<bool>, k: nat)
    requires InRange(chunk, remove) && k <= |remove|
    ensures Emitted(chunk, remove, IndexMap(remove), k).Some?
    ensures CodeEmitted(chunk, remove, k, Emitted(chunk, remove, IndexMap(remove), k).value)
    ensures TablesIterated(chunk, remove, k, Emitted(chunk, remove, IndexMap(remove), k).value.tables)
  {
    if k > 0 {
      EmissionSucceeds(chunk, remove, k - 1);
      var prev := Emitted(chunk, remove, IndexMap(remove), k - 1).value;
      if remove[k - 1] {
        SkippingKeeps(chunk, remove, k - 1, prev);
      } else {
        EmitSucceeds(chunk, remove, k - 1, prev);
      }
    }
  }

  lemma SkippingKeeps(chunk: Chunk, remove: seq<bool>, i: nat, prev: Output)
    requires Parallel(chunk, remove) && i < |remove| && remove[i]
    requires CodeEmitted(chunk, remove, i, prev) && TablesIterated(chunk, remove, i, prev.tables)
    ensures CodeEmitted(chunk, remove, i + 1, prev) && TablesIterated(chunk, remove, i + 1, prev.tables)
  {
    assert forall j: nat :: Kept(remove, j) && j < i + 1 ==> j < i;
    forall t: nat | t < |prev.tables|
      ensures TableIterated(chunk, remove, i + 1, t, prev.tables[t])
    {
      assert TableIterated(chunk, remove, i, t, prev.tables[t]);
    }
  }

  lemma EmitSucceeds(chunk: Chunk, remove: seq<bool>, i: nat, prev: Output)
    requires InRange(chunk, remove) && Kept(remove, i)
    requires CodeEmitted(chunk, remove, i, prev) && TablesIterated(chunk, remove, i, prev.tables)
    ensures EmitOne(chunk, IndexMap(remove), i, prev).Some?
    ensures CodeEmitted(chunk, remove, i + 1, EmitOne(chunk, IndexMap(remove), i, prev).value)
    ensures TablesIterated(chunk, remove, i + 1, EmitOne(chunk, IndexMap(remove), i, prev).value.tables)
  {
    hide Iterated, TablesIterated;
    var m := IndexMap(remove);
    assert TargetsInRange(chunk, i);
    if !chunk.code[i].Switch? {
      InstructionRebases(remove, i, chunk.code[i], chunk.switchTables);
    }
    TablesExtend(chunk, remove, i, prev.tables);
    var out := EmitOne(chunk, m, i, prev).value;
    forall j: nat | Kept(remove, j) && j < i + 1
      ensures PlacedAt(chunk, remove, j, out)
    {
      if j < i {
        assert PlacedAt(chunk, remove, j, prev);
      }
    }
  }

  /** In a chunk in range all users of a table reach all its targets. */
  lemma TableReaches(chunk: Chunk, remove: seq<bool>, t: nat, a: nat)
    requires InRange(chunk, remove) && t < |chunk.switchTables| && a < |Slots(chunk.switchTables[t])|
    ensures Reaches(chunk, remove, t, Slots(chunk.switchTables[t])[a])
  {
    var table := chunk.switchTables[t];
    forall i: nat | Uses(chunk, remove, i, t)
      ensures 0 <= i + Slots(table)[a] <= |remove|
    {
      assert TargetsInRange(chunk, i);
      assert Targets(chunk, i)[a] == i + Slots(table)[a];
    }
  }

  lemma SlotsRebase(remove: seq<bool>, i: nat, table: SwitchTable)
    requires Kept(remove, i)
    requires forall a :: 0 <= a < |Slots(table)| ==> 0 <= i + Slots(table)[a] <= |remove|
    ensures RebaseTable(IndexMap(remove), i, table).Some?
    ensures var new_ := Slots(RebaseTable(IndexMap(remove), i, table).value);
            && |new_| == |Slots(table)|
            && (forall a :: 0 <= a < |new_| ==> new_[a] == Shifted(remove, i, Slots(table)[a]))
  {
    forall a | 0 <= a < |Slots(table)|
      ensures TableTargets(i, table)[a] == i + Slots(table)[a]
    {
    }
    TableRebases(remove, i, table);
    hide RebaseTable, NewIndex;
    var new_ := RebaseTable(IndexMap(remove), i, table).value;
    forall a | 0 <= a < |Slots(table)|
      ensures Slots(new_)[a] == Shifted(remove, i, Slots(table)[a])
    {
      assert TableTargets(NewIndex(remove, i), new_)[a] == NewIndex(remove, i) + Slots(new_)[a];
    }
  }

  lemma TablesExtend(chunk: Chunk, remove: seq<bool>, i: nat, tables: seq<SwitchTable>)
    requires InRange(chunk, remove) && Kept(remove, i) && TablesIterated(chunk, remove, i, tables)
    ensures RebaseTableOf(IndexMap(remove), i, chunk.code[i], tables).Some?
    ensures TablesIterated(chunk, remove, i + 1, RebaseTableOf(IndexMap(remove), i, chunk.code[i], tables).value)
  {
    assert i < |IndexMap(remove)|;
    hide RebaseTable, IndexMap, NewIndex, Shifted;
    assert TargetsInRange(chunk, i);
    if chunk.code[i].Switch? {
      var t := chunk.code[i].table;
      assert Uses(chunk, remove, i, t) && TableIterated(chunk, remove, i, t, tables[t]);
      forall a | 0 <= a < |Slots(tables[t])|
        ensures 0 <= i + Slots(tables[t])[a] <= |remove|
      {
        TableReaches(chunk, remove, t, a);
        IterationShrinks(chunk, remove, t, Slots(chunk.switchTables[t])[a], 0, i);
      }
      SlotsRebase(remove, i, tables[t]);
    }
    var after := RebaseTableOf(IndexMap(remove), i, chunk.code[i], tables).value;
    forall t: nat | t < |after|
      ensures TableIterated(chunk, remove, i + 1, t, after[t])
    {
      assert TableIterated(chunk, remove, i, t, tables[t]);
    }
  }

  /** A kept instruction and what compaction made of it. */
  ghost predicate Corresponds(chunk: Chunk, remove: seq<bool>, compacted: Chunk, i: nat)
    requires Parallel(chunk, remove) && Kept(remove, i)
  {
    var j := NewIndex(remove, i);
    && j < |compacted.code| == |compacted.spans|
    && Shape(compacted.code[j]) == Shape(chunk.code[i])
    && compacted.spans[j] == chunk.spans[i]
    && Mapped(remove, Targets(chunk, i), Targets(compacted, j))
  }

  /** Compaction of a chunk in range goes through without a panic, keeps exactly
      the unmarked instructions with their spans, and moves every catch bound. A
      kept instruction's targets move unless its table ends up otherwise. */
  lemma CompactionSucceeds(chunk: Chunk, remove: seq<bool>)
    requires InRange(chunk, remove)
    ensures Compacted(chunk, remove).Some?
    ensures var compacted := Compacted(chunk, remove).value;
            && |compacted.code| == NewIndex(remove, |remove|) && |compacted.switchTables| == |chunk.switchTables|
            && (forall i: nat :: Kept(remove, i) ==>
                  (Corresponds(chunk, remove, compacted, i) <==> Settles(chunk, remove, i)))
            && RebaseCatches(IndexMap(remove), chunk.catchTable) == Some(compacted.catchTable)
  {
    var m := IndexMap(remove);
    EmissionSucceeds(chunk, remove, |remove|);
    CatchesSucceed(chunk, remove, chunk.catchTable);
    var out := Emitted(chunk, remove, m, |remove|).value;
    var compacted := Compacted(chunk, remove).value;
    hide Emitted, RebaseCatches, IndexMap, Corresponds, Settles;
    forall i: nat | Kept(remove, i)
      ensures Corresponds(chunk, remove, compacted, i) <==> Settles(chunk, remove, i)
    {
      EmittedCorresponds(chunk, remove, i, out, compacted);
    }
  }

  /** After all rebases the offsets of the instruction's table, if it has one,
      are those its own rebase alone gives. */
  ghost predicate Settles(chunk: Chunk, remove: seq<bool>, i: nat)
    requires i < |chunk.code|
  {
    chunk.code[i].Switch? && chunk.code[i].table < |chunk.switchTables| ==>
      var t := chunk.code[i].table;
      var slots := Slots(chunk.switchTables[t]);
      forall a :: 0 <= a < |slots| ==>
        Iterated(chunk, remove, t, slots[a], |remove|) == Shifted(remove, i, slots[a])
  }

  lemma EmittedCorresponds(chunk: Chunk, remove: seq<bool>, i: nat, out: Output, compacted: Chunk)
    requires Parallel(chunk, remove) && Kept(remove, i) && TargetsInRange(chunk, i)
    requires PlacedAt(chunk, remove, i, out) && TablesIterated(chunk, remove, |remove|, out.tables)
    requires compacted.code == out.code && compacted.spans == out.spans && compacted.switchTables == out.tables
    ensures Corresponds(chunk, remove, compacted, i) <==> Settles(chunk, remove, i)
  {
    hide NewIndex, TableTargets, RebaseTable, Within, Iterated;
    if chunk.code[i].Switch? {
      var t := chunk.code[i].table;
      assert TableIterated(chunk, remove, |remove|, t, out.tables[t]);
      SwitchMappedIff(remove, i, chunk.switchTables[t], out.tables[t]);
    } else {
      InstructionRebases(remove, i, chunk.code[i], chunk.switchTables);
    }
  }

  lemma SwitchMappedIff(remove: seq<bool>, i: nat, table: SwitchTable, new_: SwitchTable)
    requires Kept(remove, i) && Within(TableTargets(i, table), |remove|) && |Slots(new_)| == |Slots(table)|
    ensures Mapped(remove, TableTargets(i, table), TableTargets(NewIndex(remove, i), new_)) <==>
            forall a :: 0 <= a < |Slots(table)| ==> Slots(new_)[a] == Shifted(remove, i, Slots(table)[a])
  {
    var from, to := TableTargets(i, table), TableTargets(NewIndex(remove, i), new_);
    TargetsAreSlots(i, table);
    TargetsAreSlots(NewIndex(remove, i), new_);
    hide NewIndex, TableTargets, Slots;
    OffsetsMappedIff(remove, i, Slots(table), Slots(new_), from, to);
  }

  lemma TargetsAreSlots(i: nat, table: SwitchTable)
    ensures |TableTargets(i, table)| == |Slots(table)|
    ensures forall a :: 0 <= a < |Slots(table)| ==> TableTargets(i, table)[a] == i + Slots(table)[a]
  {
  }

  lemma OffsetsMappedIff(
    remove: seq<bool>, i: nat, offsets: seq<int>, new_: seq<int>, from: seq<int>, to: seq<int>)
    requires Kept(remove, i) && |from| == |offsets| == |new_| == |to| && Within(from, |remove|)
    requires forall a :: 0 <= a < |offsets| ==> from[a] == i + offsets[a]
    requires forall a :: 0 <= a < |new_| ==> to[a] == NewIndex(remove, i) + new_[a]
    ensures Mapped(remove, from, to) <==> forall a :: 0 <= a < |offsets| ==> new_[a] == Shifted(remove, i, offsets[a])
  {
    hide NewIndex;
    forall a | 0 <= a < |offsets|
      ensures 0 <= from[a] <= |remove|
      ensures to[a] == NewIndex(remove, from[a]) <==> new_[a] == Shifted(remove, i, offsets[a])
    {
      assert from[a] == i + offsets[a] && to[a] == NewIndex(remove, i) + new_[a];
    }
  }

  // ----- When shared tables do no harm -----

  /** Two users of an offset want the same result, and the later one's rebase
      leaves the earlier one's alone. */
  ghost predicate Agree(remove: seq<bool>, i: nat, j: nat, offset: int) {
    var first := Shifted(remove, i, offset);
    first == Shifted(remove, j, offset) == Shifted(remove, j, first)
  }

  /** All kept users of each table agree on each of its offsets. */
  ghost predicate TablesAgree(chunk: Chunk, remove: seq<bool>) {
    forall i: nat, j: nat, t: nat, a: nat ::
      i < j && Uses(chunk, remove, i, t) && Uses(chunk, remove, j, t) && HasSlot(chunk, t, a) ==>
        Agree(remove, i, j, Slots(chunk.switchTables[t])[a])
  }

  ghost predicate HasSlot(chunk: Chunk, t: nat, a: nat) {
    t < |chunk.switchTables| && a < |Slots(chunk.switchTables[t])|
  }

  /** Up to `k` the offset is what the first user made of it. */
  lemma {:induction false} AgreementSettles(chunk: Chunk, remove: seq<bool>, t: nat, offset: int, i: nat, k: nat)
    requires Uses(chunk, remove, i, t) && i < k
    requires forall j: nat, l: nat ::
      j < l && Uses(chunk, remove, j, t) && Uses(chunk, remove, l, t) ==> Agree(remove, j, l, offset)
    ensures Iterated(chunk, remove, t, offset, k) == Shifted(remove, i, offset)
    decreases k
  {
    hide Shifted;
    var before := Iterated(chunk, remove, t, offset, k - 1);
    if i < k - 1 {
      AgreementSettles(chunk, remove, t, offset, i, k - 1);
      assert Uses(chunk, remove, k - 1, t) ==> Agree(remove, i, k - 1, offset);
    } else if j: nat :| j < i && Uses(chunk, remove, j, t) {
      AgreementSettles(chunk, remove, t, offset, j, k - 1);
      assert Agree(remove, j, i, offset);
    } else {
      UntouchedBefore(chunk, remove, t, offset, k - 1);
    }
  }

  lemma {:induction false} UntouchedBefore(chunk: Chunk, remove: seq<bool>, t: nat, offset: int, k: nat)
    requires forall j: nat :: j < k ==> !Uses(chunk, remove, j, t)
    ensures Iterated(chunk, remove, t, offset, k) == offset
  {
    if k > 0 {
      UntouchedBefore(chunk, remove, t, offset, k - 1);
    }
  }

  /** If the offset ends where every user wants it, no later rebase moved it:
      each only shrinks it, and the first already took it all the way. */
  lemma SettlingAgrees(chunk: Chunk, remove: seq<bool>, t: nat, offset: int, i: nat, j: nat)
    requires Reaches(chunk, remove, t, offset) && i < j
    requires Uses(chunk, remove, i, t) && Uses(chunk, remove, j, t)
    requires forall l: nat :: Uses(chunk, remove, l, t) ==>
               Iterated(chunk, remove, t, offset, |remove|) == Shifted(remove, l, offset)
    ensures Agree(remove, i, j, offset)
  {
    var final := Iterated(chunk, remove, t, offset, |remove|);
    var first := FirstUser(chunk, remove, t, i);
    UntouchedBefore(chunk, remove, t, offset, first);
    assert Iterated(chunk, remove, t, offset, first + 1) == final;
    IterationShrinks(chunk, remove, t, offset, first + 1, j);
    IterationShrinks(chunk, remove, t, offset, j, j + 1);
    IterationShrinks(chunk, remove, t, offset, j + 1, |remove|);
  }

  lemma {:induction false} FirstUser(chunk: Chunk, remove: seq<bool>, t: nat, i: nat) returns (first: nat)
    requires Uses(chunk, remove, i, t)
    ensures first <= i && Uses(chunk, remove, first, t)
    ensures forall j: nat :: j < first ==> !Uses(chunk, remove, j, t)
  {
    first := i;
    if j: nat :| j < i && Uses(chunk, remove, j, t) {
      first := FirstUser(chunk, remove, t, j);
    }
  }

  /** Exactly when every offset is right: the targets of all kept instructions
      move with them if and only if the users of each table agree. */
  lemma CompactionIsRightIff(chunk: Chunk, remove: seq<bool>)
    requires InRange(chunk, remove)
    ensures Compacted(chunk, remove).Some?
    ensures (forall i: nat :: Kept(remove, i) ==> Corresponds(chunk, remove, Compacted(chunk, remove).value, i)) <==>
            TablesAgree(chunk, remove)
  {
    CompactionSucceeds(chunk, remove);
    hide Compacted, Corresponds, Agree, Iterated, Shifted;
    if TablesAgree(chunk, remove) {
      forall i: nat | Kept(remove, i)
        ensures Settles(chunk, remove, i)
      {
        AgreementIsEnough(chunk, remove, i);
      }
    }
    if forall i: nat :: Kept(remove, i) ==> Settles(chunk, remove, i) {
      forall i: nat, j: nat, t: nat, a: nat |
        i < j && Uses(chunk, remove, i, t) && Uses(chunk, remove, j, t) && HasSlot(chunk, t, a)
        ensures Agree(remove, i, j, Slots(chunk.switchTables[t])[a])
      {
        TableReaches(chunk, remove, t, a);
        SettlingAgrees(chunk, remove, t, Slots(chunk.switchTables[t])[a], i, j);
      }
    }
  }

  lemma AgreementIsEnough(chunk: Chunk, remove: seq<bool>, i: nat)
    requires InRange(chunk, remove) && TablesAgree(chunk, remove) && Kept(remove, i)
    ensures Settles(chunk, remove, i)
  {
    hide Iterated, Shifted, Agree;
    if chunk.code[i].Switch? && chunk.code[i].table < |chunk.switchTables| {
      var t := chunk.code[i].table;
      var slots := Slots(chunk.switchTables[t]);
      forall a | 0 <= a < |slots|
        ensures Iterated(chunk, remove, t, slots[a], |remove|) == Shifted(remove, i, slots[a])
      {
        assert HasSlot(chunk, t, a);
        AgreementSettles(chunk, remove, t, slots[a], i, |remove|);
      }
    }
  }

  /** Tables with one user each agree with themselves. */
  lemma UnsharedAgrees(chunk: Chunk, remove: seq<bool>)
    requires Unshared(chunk, remove)
    ensures TablesAgree(chunk, remove)
  {
    assert forall i: nat, j: nat, t: nat :: Uses(chunk, remove, i, t) && Uses(chunk, remove, j, t) ==> i == j;
  }

  lemma {:induction false} CatchesSucceed(chunk: Chunk, remove: seq<bool>, entries: seq<CatchEntry>)
    requires Parallel(chunk, remove)
    requires forall k :: 0 <= k < |entries| ==> CatchInRange(chunk, entries[k])
    ensures RebaseCatches(IndexMap(remove), entries).Some?
    decreases |entries|
  {
    if entries != [] {
      CatchesSucceed(chunk, remove, entries[..|entries| - 1]);
    }
  }

  /** A kept instruction is inside a protected range after compaction exactly
      when it was before. */
  lemma CatchRangesPreserved(remove: seq<bool>, start: nat, end: nat, i: nat)
    requires Kept(remove, i) && start <= |remove| && end <= |remove|
    ensures start <= i < end <==>
            NewIndex(remove, start) <= NewIndex(remove, i) < NewIndex(remove, end)
  {
    if start <= i {
      NewIndexSpacing(remove, start, i);
    } else {
      NewIndexSpacing(remove, i, start);
    }
    if i < end {
      NewIndexSpacing(remove, i, end);
    } else {
      NewIndexSpacing(remove, end, i);
    }
  }

  /** A kept foreach-next still reaches the instruction two further on exactly
      when the one in between was kept. */
  lemma ForeachEdgePreserved(remove: seq<bool>, i: nat)
    requires Kept(remove, i) && i + 2 <= |remove|
    ensures NewIndex(remove, i) + 2 == NewIndex(remove, i + 2) <==> Kept(remove, i + 1)
  {
    assert NewIndex(remove, i + 2) == NewIndex(remove, i + 1) + (if remove[i + 1] then 0 else 1);
  }

  /** Under every outcome a kept instruction sends control to the moved target,
      or neither sends it anywhere. */
  ghost predicate SendsAlike(chunk: Chunk, remove: seq<bool>, compacted: Chunk, i: nat, outcome: Outcome)
    requires i < |chunk.code| && i <= |remove| && NewIndex(remove, i) < |compacted.code|
  {
    match Transfer(chunk, i, outcome)
    case None => Transfer(compacted, NewIndex(remove, i), outcome) == None
    case Some(t) =>
      0 <= t <= |remove| && Transfer(compacted, NewIndex(remove, i), outcome) == Some(NewIndex(remove, t))
  }

  lemma SwitchSendsAlike(chunk: Chunk, remove: seq<bool>, compacted: Chunk, i: nat, outcome: Outcome)
    requires Parallel(chunk, remove) && Kept(remove, i) && Corresponds(chunk, remove, compacted, i)
    requires chunk.code[i].Switch? && TargetsInRange(chunk, i) && |compacted.switchTables| == |chunk.switchTables|
    ensures SendsAlike(chunk, remove, compacted, i, outcome)
  {
    var j, t := NewIndex(remove, i), chunk.code[i].table;
    hide NewIndex;
    var from, to := TableTargets(i, chunk.switchTables[t]), TableTargets(j, compacted.switchTables[t]);
    assert Mapped(remove, from, to);
    var n := |chunk.switchTables[t].targets|;
    if outcome.Arm? && outcome.number < n {
      assert from[outcome.number] == i + chunk.switchTables[t].targets[outcome.number];
      assert to[outcome.number] == j + compacted.switchTables[t].targets[outcome.number];
    } else if outcome.NoArm? {
      assert from[n] == i + chunk.switchTables[t].default && to[n] == j + compacted.switchTables[t].default;
    }
  }

  /** All edges of a kept instruction move with their ends. */
  lemma EdgesPreserved(chunk: Chunk, remove: seq<bool>, compacted: Chunk, i: nat, outcome: Outcome)
    requires Parallel(chunk, remove) && Kept(remove, i) && Corresponds(chunk, remove, compacted, i)
    requires TargetsInRange(chunk, i) && |compacted.switchTables| == |chunk.switchTables|
    requires chunk.code[i].ForeachNext? ==> Kept(remove, i + 1)
    ensures SendsAlike(chunk, remove, compacted, i, outcome)
  {
    if chunk.code[i].Switch? {
      SwitchSendsAlike(chunk, remove, compacted, i, outcome);
    } else {
      NextKept(remove, i);
      if chunk.code[i].ForeachNext? {
        ForeachEdgePreserved(remove, i);
      }
      hide NewIndex;
      var from, to := Targets(chunk, i), Targets(compacted, NewIndex(remove, i));
      assert |from| > 0 ==> 0 <= from[0] <= |remove| && to[0] == NewIndex(remove, from[0]);
      assert |from| > 1 ==> 0 <= from[1] <= |remove| && to[1] == NewIndex(remove, from[1]);
    }
  }

  lemma NextKept(remove: seq<bool>, i: nat)
    requires Kept(remove, i)
    ensures NewIndex(remove, i + 1) == NewIndex(remove, i) + 1
  {
  }

  // ----- Running code -----

  /** What an instruction does with control. */
  datatype Next = Take(outcome: Outcome) | Raise | Stop

  /** The answer of a catch clause; testing it may itself throw, which ends the
      search and leaves the frame with another state. */
  datatype CatchTest<S> = Accepts | Rejects | Escapes(state: S)

  /** An arbitrary meaning for opcodes and catch clauses over states `S`. */
  datatype Machine<!S> = Machine(exec: (Opcode, S) -> (S, Next), catches: (nat, S) -> CatchTest<S>)

  datatype Config<S> = At(pc: nat, state: S) | Halted(state: S)

  /** What a raise finds: a handler, or nothing and the state it leaves with. */
  datatype Unwinding<S> = Caught(handler: nat) | Uncaught(state: S)

  /** The handler of the first entry that covers `pc` and accepts the state. */
  function Handler<S>(machine: Machine<S>, entries: seq<CatchEntry>, pc: nat, s: S): Unwinding<S> {
    if entries == [] then Uncaught(s)
    else if entries[0].start <= pc < entries[0].end then
      match machine.catches(entries[0].clause, s)
      case Accepts => Caught(entries[0].handler)
      case Rejects => Handler(machine, entries[1..], pc, s)
      case Escapes(replacement) => Uncaught(replacement)
    else Handler(machine, entries[1..], pc, s)
  }

  function Step<S>(machine: Machine<S>, chunk: Chunk, c: Config<S>): Config<S> {
    match c
    case Halted(_) => c
    case At(pc, s) =>
      if pc >= |chunk.code| then Halted(s)
      else
        var (s', next) := machine.exec(chunk.code[pc].op, s);
        match next
        case Take(outcome) =>
          var target := Transfer(chunk, pc, outcome);
          if target.Some? && target.value >= 0 then At(target.value, s') else Halted(s')
        case Raise =>
          (match Handler(machine, chunk.catchTable, pc, s')
           case Caught(handler) => At(handler, s')
           case Uncaught(left) => Halted(left))
        case Stop => Halted(s')
  }

  /** The original with its removed slots falling through untouched. */
  function MaskedStep<S>(machine: Machine<S>, chunk: Chunk, remove: seq<bool>, c: Config<S>): Config<S> {
    if c.At? && c.pc < |remove| && remove[c.pc] then At(c.pc + 1, c.state) else Step(machine, chunk, c)
  }

  function Run<S>(machine: Machine<S>, chunk: Chunk, n: nat, c: Config<S>): Config<S> {
    if n == 0 then c else Run(machine, chunk, n - 1, Step(machine, chunk, c))
  }

  function MaskedRun<S>(machine: Machine<S>, chunk: Chunk, remove: seq<bool>, n: nat, c: Config<S>): Config<S> {
    if n == 0 then c else MaskedRun(machine, chunk, remove, n - 1, MaskedStep(machine, chunk, remove, c))
  }

  /** How many of the first `n` masked steps are not at a removed slot. */
  function VisibleSteps<S>(machine: Machine<S>, chunk: Chunk, remove: seq<bool>, n: nat, c: Config<S>): nat {
    if n == 0 then 0
    else (if Silent(remove, c) then 0 else 1)
         + VisibleSteps(machine, chunk, remove, n - 1, MaskedStep(machine, chunk, remove, c))
  }

  predicate Silent<S>(remove: seq<bool>, c: Config<S>) {
    c.At? && c.pc < |remove| && remove[c.pc]
  }

  /** Where a configuration of the original is in the compacted code. */
  function Moved<S>(remove: seq<bool>, c: Config<S>): Config<S>
    requires Inside(remove, c)
  {
    match c
    case Halted(_) => c
    case At(pc, s) => At(NewIndex(remove, pc), s)
  }

  predicate Inside<S>(remove: seq<bool>, c: Config<S>) {
    c.At? ==> c.pc <= |remove|
  }

  ghost predicate Preserving(chunk: Chunk, remove: seq<bool>, compacted: Chunk) {
    && InRange(chunk, remove)
    && TablesAgree(chunk, remove)
    && ForeachIntact(chunk, remove)
    && Compacted(chunk, remove) == Some(compacted)
  }

  lemma {:induction false} HandlersPreserved<S>(
    machine: Machine<S>, chunk: Chunk, remove: seq<bool>, entries: seq<CatchEntry>, moved: seq<CatchEntry>,
    i: nat, s: S)
    requires Parallel(chunk, remove) && Kept(remove, i) && |moved| == |entries|
    requires forall k :: 0 <= k < |entries| ==> CatchInRange(chunk, entries[k])
    requires forall k :: 0 <= k < |entries| ==> RebaseCatch(IndexMap(remove), entries[k]) == Some(moved[k])
    ensures var h := Handler(machine, entries, i, s);
            var h' := Handler(machine, moved, NewIndex(remove, i), s);
            match h
            case Caught(handler) => handler <= |remove| && h' == Caught(NewIndex(remove, handler))
            case Uncaught(_) => h' == h
    decreases |entries|
  {
    if entries != [] {
      assert RebaseCatch(IndexMap(remove), entries[0]) == Some(moved[0]) && CatchInRange(chunk, entries[0]);
      CatchRangesPreserved(remove, entries[0].start, entries[0].end, i);
      HandlersPreserved(machine, chunk, remove, entries[1..], moved[1..], i, s);
    }
  }

  /** One masked step is either silent, leaving the compacted code where it is,
      or one step of the compacted code. */
  lemma StepsCorrespond<S>(machine: Machine<S>, chunk: Chunk, remove: seq<bool>, compacted: Chunk, c: Config<S>)
    requires Preserving(chunk, remove, compacted) && Inside(remove, c)
    ensures Inside(remove, MaskedStep(machine, chunk, remove, c))
    ensures Moved(remove, MaskedStep(machine, chunk, remove, c)) ==
            if Silent(remove, c) then Moved(remove, c) else Step(machine, compacted, Moved(remove, c))
  {
    CompactionSucceeds(chunk, remove);
    CompactionIsRightIff(chunk, remove);
    if c.At? && c.pc < |remove| {
      if !remove[c.pc] {
        assert Corresponds(chunk, remove, compacted, c.pc);
        KeptStepsCorrespond(machine, chunk, remove, compacted, c.pc, c.state);
      }
    }
  }

  lemma SameOpcode(a: Instruction, b: Instruction)
    requires Shape(a) == Shape(b)
    ensures a.op == b.op
  {
    assert Shape(a).op == a.op && Shape(b).op == b.op;
  }

  lemma KeptStepsCorrespond<S>(
    machine: Machine<S>, chunk: Chunk, remove: seq<bool>, compacted: Chunk, pc: nat, s: S)
    requires Parallel(chunk, remove) && Kept(remove, pc) && Corresponds(chunk, remove, compacted, pc)
    requires TargetsInRange(chunk, pc) && |compacted.switchTables| == |chunk.switchTables|
    requires chunk.code[pc].ForeachNext? ==> Kept(remove, pc + 1)
    requires forall k :: 0 <= k < |chunk.catchTable| ==> CatchInRange(chunk, chunk.catchTable[k])
    requires RebaseCatches(IndexMap(remove), chunk.catchTable) == Some(compacted.catchTable)
    ensures Inside(remove, Step(machine, chunk, At(pc, s)))
    ensures Moved(remove, Step(machine, chunk, At(pc, s))) == Step(machine, compacted, At(NewIndex(remove, pc), s))
  {
    SameOpcode(chunk.code[pc], compacted.code[NewIndex(remove, pc)]);
    var (s', next) := machine.exec(chunk.code[pc].op, s);
    if next.Take? {
      EdgesPreserved(chunk, remove, compacted, pc, next.outcome);
    }
    hide NewIndex, IndexMap, Transfer, Handler, Shape, RebaseCatches, Targets, Corresponds;
    HandlersPreserved(machine, chunk, remove, chunk.catchTable, compacted.catchTable, pc, s');
  }

  /** A machine whose instructions always come out the same. */
  function Always(outcome: Outcome): Machine<nat> {
    Machine((op, s) => (s, Take(outcome)), (clause, s) => Rejects)
  }

  ghost predicate InStep(chunk: Chunk, remove: seq<bool>, compacted: Chunk, machine: Machine<nat>, pc: nat) {
    var c := At(pc, 0);
    Inside(remove, Step(machine, chunk, c)) && pc <= |remove| &&
    Moved(remove, Step(machine, chunk, c)) == Step(machine, compacted, Moved(remove, c))
  }

  /** If the users of some table do not agree, some machine tells the compacted
      code from the original in one step at a kept instruction. */
  lemma DisagreementShows(chunk: Chunk, remove: seq<bool>) returns (outcome: Outcome, pc: nat)
    requires InRange(chunk, remove) && !TablesAgree(chunk, remove)
    ensures Compacted(chunk, remove).Some? && Kept(remove, pc)
    ensures !InStep(chunk, remove, Compacted(chunk, remove).value, Always(outcome), pc)
  {
    CompactionSucceeds(chunk, remove);
    CompactionIsRightIff(chunk, remove);
    var compacted := Compacted(chunk, remove).value;
    pc :| Kept(remove, pc) && !Corresponds(chunk, remove, compacted, pc);
    outcome := WrongArm(chunk, remove, compacted, pc);
  }

  lemma WrongArm(chunk: Chunk, remove: seq<bool>, compacted: Chunk, pc: nat) returns (outcome: Outcome)
    requires InRange(chunk, remove) && Compacted(chunk, remove) == Some(compacted) && Kept(remove, pc)
    requires !Corresponds(chunk, remove, compacted, pc)
    ensures !InStep(chunk, remove, compacted, Always(outcome), pc)
  {
    EmissionSucceeds(chunk, remove, |remove|);
    var out := Emitted(chunk, remove, IndexMap(remove), |remove|).value;
    assert TargetsInRange(chunk, pc) && PlacedAt(chunk, remove, pc, out);
    EmittedCorresponds(chunk, remove, pc, out, compacted);
    var t, j := chunk.code[pc].table, NewIndex(remove, pc);
    var slots, new_ := Slots(chunk.switchTables[t]), Slots(out.tables[t]);
    assert TableIterated(chunk, remove, |remove|, t, out.tables[t]);
    var edge: nat :| edge < |slots| && new_[edge] != Shifted(remove, pc, slots[edge]);
    assert compacted.code[j] == chunk.code[pc] && compacted.switchTables == out.tables;
    TableReaches(chunk, remove, t, edge);
    assert Uses(chunk, remove, pc, t);
    ArmShows(chunk, remove, compacted, pc, edge);
    outcome := SlotOutcome(chunk.switchTables[t], edge);
  }

  /** The outcome that leads a switch through a slot of its table. */
  function SlotOutcome(table: SwitchTable, slot: nat): Outcome {
    if slot < |table.targets| then Arm(slot) else NoArm
  }

  lemma ArmShows(chunk: Chunk, remove: seq<bool>, compacted: Chunk, pc: nat, edge: nat)
    requires Kept(remove, pc) && pc < |chunk.code| && NewIndex(remove, pc) < |compacted.code|
    requires chunk.code[pc].Switch? && compacted.code[NewIndex(remove, pc)] == chunk.code[pc]
    requires chunk.code[pc].table < |chunk.switchTables| && chunk.code[pc].table < |compacted.switchTables|
    requires var slots, new_ := Slots(chunk.switchTables[chunk.code[pc].table]),
                                Slots(compacted.switchTables[chunk.code[pc].table]);
             && edge < |slots| == |new_| && 0 <= pc + slots[edge] <= |remove|
             && new_[edge] != Shifted(remove, pc, slots[edge])
    ensures !InStep(chunk, remove, compacted, Always(SlotOutcome(chunk.switchTables[chunk.code[pc].table], edge)), pc)
  {
    SwitchSteps(chunk, pc, edge);
    SwitchSteps(compacted, NewIndex(remove, pc), edge);
    hide Step, Slots, NewIndex, Targets;
  }

  /** A switch forced to one arm goes where that arm's offset leads. */
  lemma SwitchSteps(chunk: Chunk, pc: nat, edge: nat)
    requires pc < |chunk.code| && chunk.code[pc].Switch? && chunk.code[pc].table < |chunk.switchTables|
    requires edge < |Slots(chunk.switchTables[chunk.code[pc].table])|
    ensures var target := pc + Slots(chunk.switchTables[chunk.code[pc].table])[edge];
            Step(Always(SlotOutcome(chunk.switchTables[chunk.code[pc].table], edge)), chunk, At(pc, 0)) ==
            if target >= 0 then At(target, 0) else Halted(0)
  {
  }

  /** Without the slot it skips over, a kept foreach-next skips one too many. */
  lemma SkippedSlotShows(chunk: Chunk, remove: seq<bool>, pc: nat)
    requires InRange(chunk, remove) && Compacted(chunk, remove).Some?
    requires Kept(remove, pc) && chunk.code[pc].ForeachNext? && !Kept(remove, pc + 1)
    ensures !InStep(chunk, remove, Compacted(chunk, remove).value, Always(Item), pc)
  {
    var compacted, j := Compacted(chunk, remove).value, NewIndex(remove, pc);
    EmissionSucceeds(chunk, remove, |remove|);
    assert PlacedAt(chunk, remove, pc, Emitted(chunk, remove, IndexMap(remove), |remove|).value);
    assert compacted.code[j] == chunk.code[pc];
    hide Emitted, Compacted, IndexMap;
    ForeachSteps(chunk, pc);
    ForeachSteps(compacted, j);
    if pc + 2 <= |remove| {
      ForeachEdgePreserved(remove, pc);
    }
  }

  lemma ForeachSteps(chunk: Chunk, pc: nat)
    requires pc < |chunk.code| && chunk.code[pc].ForeachNext?
    ensures Step(Always(Item), chunk, At(pc, 0)) == At(pc + 2, 0)
  {
  }

  /** Every kept instruction steps alike however it comes out. */
  ghost predicate Lockstep(chunk: Chunk, remove: seq<bool>, compacted: Chunk) {
    forall outcome: Outcome, pc: nat :: Kept(remove, pc) ==> InStep(chunk, remove, compacted, Always(outcome), pc)
  }

  /** Exactly when compaction preserves meaning: the code steps alike at every
      kept instruction if and only if the users of each table agree and no kept
      foreach-next lost the slot it skips over. */
  lemma LockstepIff(chunk: Chunk, remove: seq<bool>)
    requires InRange(chunk, remove)
    ensures Compacted(chunk, remove).Some?
    ensures Lockstep(chunk, remove, Compacted(chunk, remove).value) <==>
            TablesAgree(chunk, remove) && ForeachIntact(chunk, remove)
  {
    CompactionSucceeds(chunk, remove);
    hide Compacted, TablesAgree, InStep, Corresponds, Settles;
    var compacted := Compacted(chunk, remove).value;
    if TablesAgree(chunk, remove) && ForeachIntact(chunk, remove) {
      forall outcome: Outcome, pc: nat | Kept(remove, pc)
        ensures InStep(chunk, remove, compacted, Always(outcome), pc)
      {
        PreservedInStep(chunk, remove, compacted, Always(outcome), pc);
      }
    } else if !TablesAgree(chunk, remove) {
      var outcome, pc := DisagreementShows(chunk, remove);
    } else {
      var pc: nat :| Kept(remove, pc) && chunk.code[pc].ForeachNext? && !Kept(remove, pc + 1);
      SkippedSlotShows(chunk, remove, pc);
    }
  }

  lemma PreservedInStep(chunk: Chunk, remove: seq<bool>, compacted: Chunk, machine: Machine<nat>, pc: nat)
    requires Preserving(chunk, remove, compacted) && Kept(remove, pc)
    ensures InStep(chunk, remove, compacted, machine, pc)
  {
    hide Preserving, Step;
    StepsCorrespond(machine, chunk, remove, compacted, At(pc, 0));
  }

  /** Compaction preserves meaning: after any number of masked steps of the
      original, the compacted code is in the corresponding configuration after
      as many steps as were not silent. */
  lemma {:induction false} RunsCorrespond<S>(
    machine: Machine<S>, chunk: Chunk, remove: seq<bool>, compacted: Chunk, n: nat, c: Config<S>)
    requires Preserving(chunk, remove, compacted) && Inside(remove, c)
    ensures Inside(remove, MaskedRun(machine, chunk, remove, n, c))
    ensures Moved(remove, MaskedRun(machine, chunk, remove, n, c)) ==
            Run(machine, compacted, VisibleSteps(machine, chunk, remove, n, c), Moved(remove, c))
    decreases n
  {
    if n > 0 {
      StepsCorrespond(machine, chunk, remove, compacted, c);
      RunsCorrespond(machine, chunk, remove, compacted, n - 1, MaskedStep(machine, chunk, remove, c));
    }
  }

  /** Nothing is lost: every run of the compacted code is the image of one. */
  lemma {:induction false} RunsAreCovered<S>(
    machine: Machine<S>, chunk: Chunk, remove: seq<bool>, compacted: Chunk, n: nat, c: Config<S>) returns (k: nat)
    requires Preserving(chunk, remove, compacted) && Inside(remove, c)
    ensures VisibleSteps(machine, chunk, remove, k, c) == n
    ensures Inside(remove, MaskedRun(machine, chunk, remove, k, c))
    ensures Moved(remove, MaskedRun(machine, chunk, remove, k, c)) == Run(machine, compacted, n, Moved(remove, c))
    decreases n, if c.At? then |remove| - c.pc else 0
  {
    k := 0;
    if n > 0 {
      StepsCorrespond(machine, chunk, remove, compacted, c);
      var c' := MaskedStep(machine, chunk, remove, c);
      k := RunsAreCovered(machine, chunk, remove, compacted, if Silent(remove, c) then n else n - 1, c');
      k := k + 1;
    }
    RunsCorrespond(machine, chunk, remove, compacted, k, c);
  }

  // ----- The sharing guard -----

  /** The guard of move coalescing: some table has two users. */
  method HasSharedSwitchTable(chunk: Chunk) returns (shared: bool)
    ensures shared <==> exists i: nat, j: nat, t: nat :: i < j && SwitchesOn(chunk, i, t) && SwitchesOn(chunk, j, t)
    ensures !shared ==> forall remove: seq<bool> :: Unshared(chunk, remove)
  {
    var seen: set<nat> := {};
    for k := 0 to |chunk.code|
      invariant forall t: nat :: t in seen <==> exists i: nat :: i < k && SwitchesOn(chunk, i, t)
      invariant forall i: nat, j: nat, t: nat :: i < j < k && SwitchesOn(chunk, i, t) ==> !SwitchesOn(chunk, j, t)
    {
      if chunk.code[k].Switch? {
        var table := chunk.code[k].table;
        assert SwitchesOn(chunk, k, table);
        if table in seen {
          return true;
        }
        seen := seen + {table};
      }
    }
    return false;
  }

  const SHARED := Chunk([Switch(0, 0), Straight(1), Switch(2, 0), Straight(3)], [0, 0, 0, 0], [SwitchTable([], 2)], [])
  const SECOND := [false, true, false, false]

  /** Where users do not agree the promise fails: the second rebase leads the
      second switch elsewhere. */
  lemma SharedTableBreaks()
    ensures InRange(SHARED, SECOND) && Compacted(SHARED, SECOND).Some?
    ensures !Corresponds(SHARED, SECOND, Compacted(SHARED, SECOND).value, 2)
  {
    var m := IndexMap(SECOND);
    assert m[1] == m[2] == 1 && m[3] == 2 && m[4] == 3;
    var switch0, switch2 := SHARED.code[0], SHARED.code[2];
    assert [SwitchTable([], 2)][0 := SwitchTable([], 1)] == [SwitchTable([], 1)];
    assert [SwitchTable([], 1)][0 := SwitchTable([], 1)] == [SwitchTable([], 1)];
    assert RebaseTableOf(m, 0, switch0, [SwitchTable([], 2)]) == Some([SwitchTable([], 1)]);
    assert RebaseTableOf(m, 2, switch2, [SwitchTable([], 1)]) == Some([SwitchTable([], 1)]);
    var one := [SwitchTable([], 1)];
    assert Emitted(SHARED, SECOND, m, 1) == Some(Output([] + [switch0], [] + [0], one)) by {
      assert Emitted(SHARED, SECOND, m, 0) == Some(Output([], [], SHARED.switchTables));
    }
    assert Emitted(SHARED, SECOND, m, 2) == Some(Output([] + [switch0], [] + [0], one));
    assert Emitted(SHARED, SECOND, m, 3) == Some(Output([] + [switch0] + [switch2], [] + [0] + [0], one));
    assert Emitted(SHARED, SECOND, m, 4) ==
           Some(Output([] + [switch0] + [switch2] + [Straight(3)], [] + [0] + [0] + [0], one));
    assert Targets(SHARED, 2)[0] == 4;
    assert Targets(Compacted(SHARED, SECOND).value, 1)[0] == 2;
  }

  const LOOP := Chunk([ForeachNext(0), Straight(1), Terminator(2), Terminator(3)], [0, 0, 0, 0], [], [])

  /** No table is at fault here, but the slot the foreach-next skips over is gone
      and the skip edge leads one too far. */
  lemma SkippedSlotBreaks()
    ensures InRange(LOOP, SECOND) && TablesAgree(LOOP, SECOND) && Compacted(LOOP, SECOND).Some?
    ensures !InStep(LOOP, SECOND, Compacted(LOOP, SECOND).value, Always(Item), 0)
  {
    assert InRange(LOOP, SECOND) && Unshared(LOOP, SECOND);
    UnsharedAgrees(LOOP, SECOND);
    CompactionSucceeds(LOOP, SECOND);
    hide Compacted, InStep;
    SkippedSlotShows(LOOP, SECOND, 0);
  }
}
