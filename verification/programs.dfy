/**
  Whole programs, from memory image (or program text) to printed output.
 */
module Programs {
  import opened Machine
  import opened Cpu
  import opened Loader

  /** LDI R0,8; PRN R0; HLT */
  const PRINT8: seq<nat> := [LDI, 0, 8, PRN, 0, HLT]

  /** LDI R0,8; LDI R1,9; MUL R0,R1; PRN R0; HLT */
  const MULT8X9: seq<nat> := [LDI, 0, 8, LDI, 1, 9, MUL, 0, 1, PRN, 0, HLT]

  /**
    LDI R0,5; LDI R1,y; LDI R2,15; CMP R0,R1; JEQ R2; HLT; PRN R0; HLT
    (the PRN sits at address 15, the first HLT at 14).
   */
  function EqualBranch(y: nat): seq<nat>
  {
    [LDI, 0, 5, LDI, 1, y, LDI, 2, 15, CMP, 0, 1, JEQ, 2, HLT, PRN, 0, HLT]
  }

  lemma Print8PrintsEight()
    ensures var r := Run(Boot(Image(PRINT8)), 3);
      r.status == Halt && r.output == [8] && r.final.reg[0] == 8 && r.final.pc == 5
  {
    var m := Image(PRINT8);
    var s0 := Boot(m);
    var s1 := s0.(reg := s0.reg[0 := 8], pc := 3);
    assert Step(s0) == Continue(s1, []) by {
      assert m[0] == LDI && m[1] == 0 && m[2] == 8;
    }
    var s2 := s1.(pc := 5);
    assert Step(s1) == Continue(s2, [8]) by {
      assert m[3] == PRN && m[4] == 0 && m[5] == HLT;
    }
    assert Step(s2) == Halted by {
      assert m[5] == HLT;
    }
    RunContinue(s0, s1, [], 3);
    RunContinue(s1, s2, [8], 2);
  }

  /** PRINT8 written out as one `08b` line per byte loads and prints 8. */
  lemma Print8FromText()
    ensures Load(Formats(PRINT8)) == Ok(Image(PRINT8))
    ensures var r := Run(Boot(Load(Formats(PRINT8)).value), 3);
      r.status == Halt && r.output == [8]
  {
    LoadFormatted(PRINT8);
    Print8PrintsEight();
  }

  lemma Mult8x9PrintsSeventyTwo()
    ensures var r := Run(Boot(Image(MULT8X9)), 5);
      r.status == Halt && r.output == [72]
  {
    var m := Image(MULT8X9);
    var s0 := Boot(m);
    var s1 := s0.(reg := s0.reg[0 := 8], pc := 3);
    assert Step(s0) == Continue(s1, []) by {
      assert m[0] == LDI && m[1] == 0 && m[2] == 8;
    }
    var s2 := s1.(reg := s1.reg[1 := 9], pc := 6);
    assert Step(s1) == Continue(s2, []) by {
      assert m[3] == LDI && m[4] == 1 && m[5] == 9;
    }
    var s3 := s2.(reg := s2.reg[0 := 72], pc := 9);
    assert Step(s2) == Continue(s3, []) by {
      assert m[6] == MUL && m[7] == 0 && m[8] == 1;
    }
    var s4 := s3.(pc := 11);
    assert Step(s3) == Continue(s4, [72]) by {
      assert m[9] == PRN && m[10] == 0 && m[11] == HLT;
    }
    assert Step(s4) == Halted by {
      assert m[11] == HLT && m[12] == 0 && m[13] == 0;
    }
    RunContinue(s0, s1, [], 5);
    RunContinue(s1, s2, [], 4);
    RunContinue(s2, s3, [], 3);
    RunContinue(s3, s4, [72], 2);
  }

  /**
    The first two cycles of EqualBranch(y): R0 := 5 and R1 := y, flags still clear.
   */
  lemma EqualBranchLoads(y: nat)
    ensures var r := Run(Boot(Image(EqualBranch(y))), 2);
      && r.status == OutOfFuel && r.output == [] && r.final.ram == Image(EqualBranch(y))
      && r.final.pc == 6 && r.final.reg[0] == 5 && r.final.reg[1] == y
      && r.final.E == 0 && r.final.L == 0 && r.final.G == 0
  {
    var m := Image(EqualBranch(y));
    var s0 := Boot(m);
    var s1 := s0.(reg := s0.reg[0 := 5], pc := 3);
    assert Step(s0) == Continue(s1, []) by {
      assert m[0] == LDI && m[1] == 0 && m[2] == 5;
    }
    var s2 := s1.(reg := s1.reg[1 := y], pc := 6);
    assert Step(s1) == Continue(s2, []) by {
      assert m[3] == LDI && m[4] == 1 && m[5] == y;
    }
    RunContinue(s0, s1, [], 2);
    RunContinue(s1, s2, [], 1);
  }

  /**
    The next two cycles: R2 := 15, then CMP R0,R1 from clear flags sets E
    exactly when y == 5.
   */
  lemma EqualBranchCompares(s: State, y: nat)
    requires s.ram == Image(EqualBranch(y)) && s.pc == 6
    requires s.reg[0] == 5 && s.reg[1] == y && s.E == 0 && s.L == 0 && s.G == 0
    ensures var r := Run(s, 2);
      && r.status == OutOfFuel && r.output == [] && r.final.ram == s.ram
      && r.final.pc == 12 && r.final.reg[0] == 5 && r.final.reg[2] == 15
      && (r.final.E == 1 <==> y == 5)
  {
    var m := s.ram;
    var s1 := s.(reg := s.reg[2 := 15], pc := 9);
    assert Step(s) == Continue(s1, []) by {
      assert m[6] == LDI && m[7] == 2 && m[8] == 15;
    }
    assert m[9] == CMP && m[10] == 0 && m[11] == 1;
    StepCmp(s1);
    var s2 := Step(s1).next;
    RunContinue(s, s1, [], 2);
    RunContinue(s1, s2, [], 1);
  }

  /**
    The last cycles: JEQ R2 jumps to the PRN at address 15 when E is set and
    falls through to the HLT at address 14 otherwise.
   */
  lemma EqualBranchJumps(s: State, y: nat)
    requires s.ram == Image(EqualBranch(y)) && s.pc == 12
    requires s.reg[0] == 5 && s.reg[2] == 15
    ensures var r := Run(s, 3);
      r.status == Halt && r.output == (if s.E == 1 then [5] else [])
  {
    var m := s.ram;
    assert m[12] == JEQ && m[13] == 2 && m[14] == HLT;
    if s.E == 1 {
      var s1 := s.(pc := 15);
      assert Step(s) == Continue(s1, []);
      var s2 := s1.(pc := 17);
      assert Step(s1) == Continue(s2, [5]) by {
        assert m[15] == PRN && m[16] == 0 && m[17] == HLT;
      }
      assert Step(s2) == Halted by {
        assert m[17] == HLT && m[18] == 0 && m[19] == 0;
      }
      RunContinue(s, s1, [], 3);
      RunContinue(s1, s2, [5], 2);
    } else {
      var s1 := s.(pc := 14);
      assert Step(s) == Continue(s1, []);
      assert Step(s1) == Halted by {
        assert m[14] == HLT && m[15] == PRN && m[16] == 0;
      }
      RunContinue(s, s1, [], 3);
    }
  }

  /**
    LDI R0,5; LDI R1,y; LDI R2,15; CMP R0,R1; JEQ R2; HLT; PRN R0; HLT prints
    5 exactly when y == 5, and halts either way.
   */
  lemma EqualBranchPrintsWhenEqual(y: nat)
    ensures var r := Run(Boot(Image(EqualBranch(y))), 7);
      r.status == Halt && r.output == (if y == 5 then [5] else [])
  {
    var s0 := Boot(Image(EqualBranch(y)));
    EqualBranchLoads(y);
    var s2 := Run(s0, 2).final;
    EqualBranchCompares(s2, y);
    var s4 := Run(s2, 2).final;
    EqualBranchJumps(s4, y);
    RunAppend(s2, 2, 3);
    RunAppend(s0, 2, 5);
  }
}
