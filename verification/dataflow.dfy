/** What the registers hold in any run, and that micro-ops execute after the producers of their sources. */
module Dataflow {
  import opened ExecutionRules
  import opened MicroOps
  import opened Pipelines

  ghost predicate ProgramOk(ops: seq<Op>) {
    forall i :: 0 <= i < |ops| ==> WellFormed(ops[i].uop)
  }

  /** When each register is ready after a program. */
  function Registers(ops: seq<Op>): (rf: seq<nat>)
    requires ProgramOk(ops)
    ensures |rf| == RFSIZE && rf[RFZERO] == 0
  {
    if ops == [] then seq(RFSIZE, i => 0)
    else Wrote(Registers(ops[..|ops| - 1]), ops[|ops| - 1].uop, ops[|ops| - 1].exec)
  }

  /** Micro-op `j` is the youngest writer of a register. */
  ghost predicate Produces(ops: seq<Op>, j: nat, reg: nat) {
    && j < |ops| && Writes(ops[j].uop, reg)
    && forall k :: j < k < |ops| ==> !Writes(ops[k].uop, reg)
  }

  /** A register is ready when its youngest writer has executed, and always when nothing writes it. */
  lemma {:induction false} RegisterTime(ops: seq<Op>, reg: nat)
    requires ProgramOk(ops) && reg < RFSIZE
    ensures forall j: nat :: Produces(ops, j, reg) ==> Registers(ops)[reg] == ops[j].exec
    ensures (forall j :: 0 <= j < |ops| ==> !Writes(ops[j].uop, reg)) ==> Registers(ops)[reg] == 0
  {
    hide Writes;
    if ops != [] {
      var n := |ops| - 1;
      RegisterTime(ops[..n], reg);
      forall j: nat | Produces(ops, j, reg)
        ensures Registers(ops)[reg] == ops[j].exec
      {
        if j < n {
          assert Produces(ops[..n], j, reg);
        }
      }
    }
  }

  /** Micro-op `i` reads a register that `j` is the youngest to have written. */
  ghost predicate Feeds(ops: seq<Op>, j: nat, i: nat) {
    && i < |ops|
    && exists o :: o in [ops[i].uop.a, ops[i].uop.b, ops[i].uop.c] && Needed(o) && Produces(ops[..i], j, o.logReg)
  }

  /** No micro-op gets its lane before the producers of its sources have executed. */
  ghost predicate InDataflowOrder(k: Timing, ops: seq<Op>) {
    forall i: nat, j: nat :: Feeds(ops, j, i) && WaitsForAll(ops[i].uop) ==>
      ops[j].exec + LeastLatency(k, ops[i].uop) <= ops[i].exec
  }

  lemma ProducersExecuted(ops: seq<Op>, u: MicroOp, j: nat, earliest: nat)
    requires ProgramOk(ops) && WellFormed(u)
    requires exists o :: o in [u.a, u.b, u.c] && Needed(o) && Produces(ops, j, o.logReg)
    ensures j < |ops| && ops[j].exec <= ReadyAsMeant(Registers(ops), u, earliest)
  {
    var o :| o in [u.a, u.b, u.c] && Needed(o) && Produces(ops, j, o.logReg);
    RegisterTime(ops, o.logReg);
  }

  lemma DataflowExtends(k: Timing, ops: seq<Op>, op: Op, start: nat, earliest: nat)
    requires ProgramOk(ops) && WellFormed(op.uop) && InDataflowOrder(k, ops)
    requires WaitsForAll(op.uop) ==> ReadyAsMeant(Registers(ops), op.uop, earliest) <= start
    requires start + LeastLatency(k, op.uop) <= op.exec
    ensures ProgramOk(ops + [op]) && InDataflowOrder(k, ops + [op])
    ensures Registers(ops + [op]) == Wrote(Registers(ops), op.uop, op.exec)
  {
    hide Needed;
    hide WaitsForAll;
    hide LeastLatency;
    var n, ops' := |ops|, ops + [op];
    assert ops'[..n] == ops;
    forall i: nat, j: nat | Feeds(ops', j, i) && WaitsForAll(ops'[i].uop)
      ensures ops'[j].exec + LeastLatency(k, ops'[i].uop) <= ops'[i].exec
    {
      assert ops'[..i] == ops[..i] && j < i;
      if i < n {
        assert Feeds(ops, j, i);
      } else {
        ProducersExecuted(ops, op.uop, j, earliest);
      }
    }
  }
}
