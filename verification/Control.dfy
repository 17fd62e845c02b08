/** Where control goes: the transfer of each kind of instruction under each
    outcome it can have, and the runs of control that follow. */
module Control {
  import opened Bytecode
  import opened Wrappers

  /** How an instruction that neither raises nor stops can come out. */
  datatype Outcome =
    | Done
    | NotTaken
    | Taken
    | WasTrue
    | WasFalse
    | WasNeither
    | Arm(number: nat)
    | NoArm
    | Item
    | Exhausted

  /** The next instruction, for the outcomes the instruction can have. */
  function Transfer(chunk: Chunk, pc: nat, outcome: Outcome): Option<int>
    requires pc < |chunk.code|
  {
    match (chunk.code[pc], outcome)
    case (Straight(_), Done) => Some(pc + 1)
    case (Jump(_, offset), Taken) => Some(pc + offset)
    case (ShortJump(_, short), Taken) => Some(pc + short)
    case (Branch(_, _), NotTaken) => Some(pc + 1)
    case (Branch(_, offset), Taken) => Some(pc + offset)
    case (ShortBranch(_, _), NotTaken) => Some(pc + 1)
    case (ShortBranch(_, short), Taken) => Some(pc + short)
    case (NearBranch(_, _), NotTaken) => Some(pc + 1)
    case (NearBranch(_, near), Taken) => Some(pc + near)
    case (PatternBranch(_, _, _), WasTrue) => Some(pc + 1)
    case (PatternBranch(_, onFalse, _), WasFalse) => Some(pc + onFalse)
    case (PatternBranch(_, _, onDefault), WasNeither) => Some(pc + onDefault)
    case (Switch(_, table), Arm(number)) =>
      if table < |chunk.switchTables| && number < |chunk.switchTables[table].targets|
      then Some(pc + chunk.switchTables[table].targets[number]) else None
    case (Switch(_, table), NoArm) =>
      if table < |chunk.switchTables| then Some(pc + chunk.switchTables[table].default) else None
    case (ForeachNext(_), Item) => Some(pc + 2)
    case (ForeachNext(_), Exhausted) => Some(pc + 1)
    case _ => None
  }

  /** Some outcome sends control from `u` to `v`. */
  ghost predicate Sends(chunk: Chunk, u: nat, v: int)
    requires u < |chunk.code|
  {
    exists outcome :: Transfer(chunk, u, outcome) == Some(v)
  }

  // ----- Runs of control -----

  /** A run from the entry: each instruction is where some outcome of the one
      before it sends control. */
  ghost predicate IsRun(chunk: Chunk, p: seq<nat>) {
    && |p| > 0
    && p[0] == 0
    && (forall k :: 0 <= k < |p| ==> p[k] < |chunk.code|)
    && (forall j, k :: 0 <= j < k < |p| && k == j + 1 ==> Sends(chunk, p[j], p[k]))
  }

  ghost predicate RunsTo(chunk: Chunk, p: seq<nat>, v: nat) {
    IsRun(chunk, p) && p[|p| - 1] == v
  }

  ghost predicate CanRun(chunk: Chunk, v: nat) {
    exists p :: RunsTo(chunk, p, v)
  }

  /** Every run that gets to `v` passed `c`. */
  ghost predicate MustPass(chunk: Chunk, c: nat, v: nat) {
    forall p :: RunsTo(chunk, p, v) ==> c in p
  }

  // ----- The successor lists -----

  /** The outcome that takes arm `k` of a table, the default being the last. */
  function ArmOutcome(table: SwitchTable, k: nat): Outcome {
    if k < |table.targets| then Arm(k) else NoArm
  }

  lemma ArmSends(chunk: Chunk, i: nat, k: nat)
    requires i < |chunk.code| && chunk.code[i].Switch? && chunk.code[i].table < |chunk.switchTables|
    requires k <= |chunk.switchTables[chunk.code[i].table].targets|
    ensures var table := chunk.switchTables[chunk.code[i].table];
            Transfer(chunk, i, ArmOutcome(table, k)) == Some(TableTargets(i, table)[k])
  {
  }

  lemma SentByArm(chunk: Chunk, i: nat, outcome: Outcome) returns (k: nat)
    requires i < |chunk.code| && chunk.code[i].Switch? && Transfer(chunk, i, outcome).Some?
    ensures chunk.code[i].table < |chunk.switchTables|
    ensures var table := chunk.switchTables[chunk.code[i].table];
            k <= |table.targets| && outcome == ArmOutcome(table, k)
  {
    k := if outcome.Arm? then outcome.number else |chunk.switchTables[chunk.code[i].table].targets|;
  }

  lemma SwitchSends(chunk: Chunk, i: nat, t: int)
    requires i < |chunk.code| && chunk.code[i].Switch?
    ensures t in Successors(chunk, i) <==> Sends(chunk, i, t)
  {
    if chunk.code[i].table < |chunk.switchTables| {
      var table := chunk.switchTables[chunk.code[i].table];
      assert Successors(chunk, i) == TableTargets(i, table);
      hide Transfer, Successors, TableTargets;
      if t in TableTargets(i, table) {
        var k :| 0 <= k < |TableTargets(i, table)| && TableTargets(i, table)[k] == t;
        ArmSends(chunk, i, k);
      }
      if outcome :| Transfer(chunk, i, outcome) == Some(t) {
        var k := SentByArm(chunk, i, outcome);
        ArmSends(chunk, i, k);
      }
    }
  }

  /** The successors listed for an instruction are exactly the instructions some
      outcome of it sends control to. */
  lemma SuccessorsAreSent(chunk: Chunk, i: nat, t: int)
    requires i < |chunk.code|
    ensures t in Successors(chunk, i) <==> Sends(chunk, i, t)
  {
    if chunk.code[i].Switch? {
      SwitchSends(chunk, i, t);
    } else if t in Successors(chunk, i) {
      assert || Transfer(chunk, i, Done) == Some(t)
             || Transfer(chunk, i, NotTaken) == Some(t) || Transfer(chunk, i, Taken) == Some(t)
             || Transfer(chunk, i, WasTrue) == Some(t) || Transfer(chunk, i, WasFalse) == Some(t)
             || Transfer(chunk, i, WasNeither) == Some(t)
             || Transfer(chunk, i, Item) == Some(t) || Transfer(chunk, i, Exhausted) == Some(t);
    }
  }
}
