/** The micro-ops of a trace, as the simulator reads them. */
module MicroOps {

  datatype InstClass =
    | Alu | Load | Store | CondBranch | UncondDirectBranch | UncondIndirectBranch
    | Fp | SlowAlu | Undef | CallDirect | CallIndirect | Return
  {
    predicate IsMem() {
      Load? || Store?
    }

    predicate IsUncondInd() {
      UncondIndirectBranch? || CallIndirect? || Return?
    }

    predicate IsBr() {
      CondBranch? || UncondDirectBranch? || CallDirect? || IsUncondInd()
    }

    /** The branch kinds of the predictor interface: 0 direct, 1 conditional, 2 indirect. */
    function BrType(): nat {
      if CondBranch? then 1 else if IsUncondInd() then 2 else 0
    }
  }

  datatype Operand = Operand(valid: bool, logReg: nat)

  datatype MicroOp = MicroOp(cls: InstClass, pc: nat, nextPc: nat, isTaken: bool, isLastPiece: bool,
                             a: Operand, b: Operand, c: Operand, d: Operand, addr: nat, size: nat)
}
