/**
 * What the older CPU (tomo/alter_chip/cpu.rs) does, one lemma per group of opcodes, stated
 * in plain integer arithmetic and against the same independent references as for the current
 * processor: the generic XOR blit for Dxyn and a flat table for the recognised opcodes.
 * Everything a lemma does not mention stays as it was.
 */
module AlterProperties {
  import opened Bits
  import SpriteBlit
  import AlterDisplay
  import Chip8Semantics
  import Chip8Lifecycle
  import Chip8Properties
  import opened AlterSemantics

  /** s differs from m only in pc, which moved by `delta` bytes. */
  predicate OnlyPcMoves(m: Machine, s: Machine, delta: int)
  {
    s == m.(pc := s.pc) && s.pc as int == m.pc as int + delta
  }

  /** A supported opcode that wrote no display cell. */
  predicate Quiet(out: Output)
  {
    out.success && out.editedPixels == []
  }

  // ---------------------------------------------------------------------------------------
  // Fetch and tick

  /** `fetch` returns the big-endian word at pc and advances pc past it; nothing else changes. */
  lemma FetchWord(m: Machine)
    requires Wf(m) && m.pc as int + 1 < MEM_SIZE
    ensures Fetch(m).op as int == m.mem[m.pc] as int * 256 + m.mem[m.pc + 1] as int
    ensures Fetch(m).m == m.(pc := m.pc + 2)
  {
    Word(m.mem[m.pc], m.mem[m.pc + 1]);
  }

  /** `tick` counts DT and ST down by one each unless they are zero; nothing else changes. */
  lemma TimersCountDown(m: Machine)
    requires Wf(m)
    ensures var r := DecrementTimers(m);
      && r == m.(dt := r.dt, st := r.st)
      && r.dt as int == (if m.dt as int > 0 then m.dt as int - 1 else 0)
      && r.st as int == (if m.st as int > 0 then m.st as int - 1 else 0)
  {
    var r := DecrementTimers(m);
    Chip8Lifecycle.CountDown(m.dt, r.dt);
    Chip8Lifecycle.CountDown(m.st, r.st);
  }

  /** `tick` executes the word at the old pc, on the counted-down machine with pc already past it. */
  lemma TickFetchesAtPc(m: Machine, rnd: byte)
    requires CanTick(m)
    ensures Fetch(DecrementTimers(m)).op == Fetch(m).op
    ensures CanExecute(DecrementTimers(m).(pc := m.pc + 2), Fetch(m).op)
    ensures Tick(m, rnd) == Execute(DecrementTimers(m).(pc := m.pc + 2), Fetch(m).op, rnd)
  {
  }

  /** The beeper sounds while ST is positive, so a sound timer of t lasts t more ticks. */
  lemma BeepCountsDown(m: Machine)
    requires Wf(m)
    ensures ShouldBeep(m) <==> m.st as int > 0
    ensures ShouldBeep(DecrementTimers(m)) <==> m.st as int > 1
  {
    Compare(m.st, 0);
    TimersCountDown(m);
    Compare(DecrementTimers(m).st, 0);
  }

  // ---------------------------------------------------------------------------------------
  // Which opcodes succeed

  /** The recognised opcodes written out group by group, a second description of the table. */
  predicate KnownArm(d: Chip8Semantics.Decoded)
  {
    match d.n0
    case 0x0 => d.kk == 0xE0 || d.kk == 0xEE
    case 0x8 => d.n < 0x8 || d.n == 0xE
    case 0xE => d.kk == 0x9E || d.kk == 0xA1
    case 0xF =>
      || d.kk == 0x07 || d.kk == 0x0A || d.kk == 0x15 || d.kk == 0x18 || d.kk == 0x1E
      || d.kk == 0x29 || d.kk == 0x33 || d.kk == 0x55 || d.kk == 0x65
    case _ => true
  }

  /** `success` is false exactly for the opcodes outside the group-by-group description. */
  lemma SuccessIsKnownArm(m: Machine, op: bv16, rnd: byte)
    requires CanExecute(m, op)
    ensures Execute(m, op, rnd).out.success <==> KnownArm(Chip8Semantics.Decode(op))
  {
  }

  /** Every recognised opcode fits the arm of the table that runs it. */
  lemma KnownArmFits(d: Chip8Semantics.Decoded)
    requires d.n0 < 16 && d.n < 16 && KnownArm(d)
    ensures exists k :: 0 <= k < |ARMS| && Fits(d, ARMS[k])
  {
    if d.n0 == 0x0 {
      if d.kk == 0xE0 { assert Fits(d, ARMS[0]); } else { assert Fits(d, ARMS[1]); }
    } else if d.n0 < 0x8 {
      assert Fits(d, ARMS[d.n0 + 1]);
    } else if d.n0 == 0x8 {
      if d.n < 0x8 { assert Fits(d, ARMS[d.n + 9]); } else { assert Fits(d, ARMS[17]); }
    } else if d.n0 < 0xE {
      assert Fits(d, ARMS[d.n0 + 9]);
    } else if d.n0 == 0xE {
      if d.kk == 0x9E { assert Fits(d, ARMS[23]); } else { assert Fits(d, ARMS[24]); }
    } else if d.kk == 0x07 { assert Fits(d, ARMS[25]);
    } else if d.kk == 0x0A { assert Fits(d, ARMS[26]);
    } else if d.kk == 0x15 { assert Fits(d, ARMS[27]);
    } else if d.kk == 0x18 { assert Fits(d, ARMS[28]);
    } else if d.kk == 0x1E { assert Fits(d, ARMS[29]);
    } else if d.kk == 0x29 { assert Fits(d, ARMS[30]);
    } else if d.kk == 0x33 { assert Fits(d, ARMS[31]);
    } else if d.kk == 0x55 { assert Fits(d, ARMS[32]);
    } else { assert Fits(d, ARMS[33]);
    }
  }

  /** An opcode outside the description fits none of the arms. */
  lemma UnknownFitsNone(d: Chip8Semantics.Decoded)
    requires !KnownArm(d)
    ensures forall k :: 0 <= k < |ARMS| ==> !Fits(d, ARMS[k])
  {
  }

  /** `success` is true exactly for the opcodes that fall under one of the 34 arms. */
  lemma SuccessIffRecognized(m: Machine, op: bv16, rnd: byte)
    requires CanExecute(m, op)
    ensures Execute(m, op, rnd).out.success <==> Recognized(op)
  {
    SuccessIsKnownArm(m, op, rnd);
    if KnownArm(Chip8Semantics.Decode(op)) {
      KnownArmFits(Chip8Semantics.Decode(op));
    } else {
      UnknownFitsNone(Chip8Semantics.Decode(op));
    }
  }

  /** An unrecognised opcode reports failure with no cell, and nothing changes, pc included. */
  lemma InvalidOpcode(m: Machine, op: bv16, rnd: byte)
    requires CanExecute(m, op) && !Recognized(op)
    ensures Execute(m, op, rnd) == Step(m, Output(false, []))
  {
    SuccessIffRecognized(m, op, rnd);
  }

  /** The low byte of an opcode is its last two nibbles. */
  lemma LowByte(op: bv16)
    ensures var d := Chip8Semantics.Decode(op); d.kk as int == d.y * 0x10 + d.n
  {
    var hi, lo := (op >> 8) as byte, (op & 0xFF) as byte;
    Split(op);
    var v := op as int;
    LowPart(v, hi as int, lo as int);
    Chip8Semantics.DecodeArith(v);
  }

  lemma LowPart(v: int, hi: int, lo: int)
    requires v == hi * 256 + lo && 0 <= lo < 256
    ensures v % 0x100 == lo
  {
  }

  /** An opcode the current processor recognises falls under the group-by-group description. */
  lemma CurrentIsKnown(op: bv16)
    requires Chip8Semantics.Recognized(op)
    ensures KnownArm(Chip8Semantics.Decode(op))
  {
    Chip8Properties.KnownArmIsRecognized(op);
    LowByte(op);
  }

  /**
   * Every opcode the current processor recognises, the older CPU recognises too, but not the
   * other way round: the older one accepts 00E0 and 00EE with any middle nibble and 5xyn and
   * 9xyn with any last nibble.
   */
  lemma AcceptsMoreThanCurrent(op: bv16)
    ensures Chip8Semantics.Recognized(op) ==> Recognized(op)
    ensures Recognized(0x01E0) && !Chip8Semantics.Recognized(0x01E0)
    ensures Recognized(0x5121) && !Chip8Semantics.Recognized(0x5121)
  {
    if Chip8Semantics.Recognized(op) {
      CurrentIsKnown(op);
      KnownArmFits(Chip8Semantics.Decode(op));
    }
    var c := Chip8Semantics.Decode(0x01E0);
    assert c == Chip8Semantics.Decoded(0, 1, 0xE, 0, 0x1E0, 0xE0);
    assert Fits(c, ARMS[0]);
    Chip8Properties.KnownArmIsRecognized(0x01E0);
    var e := Chip8Semantics.Decode(0x5121);
    assert e == Chip8Semantics.Decoded(5, 1, 2, 1, 0x121, 0x21);
    assert Fits(e, ARMS[6]);
    Chip8Properties.KnownArmIsRecognized(0x5121);
  }

  // ---------------------------------------------------------------------------------------
  // Skips, jumps, calls and the display clear

  /** 3xkk and 4xkk skip the next instruction when Vx equals (3xkk) or differs from (4xkk) kk. */
  lemma SkipOnByte(m: Machine, op: bv16, rnd: byte)
    requires CanExecute(m, op) && (Chip8Semantics.Decode(op).n0 == 0x3 || Chip8Semantics.Decode(op).n0 == 0x4)
    ensures var d, s := Chip8Semantics.Decode(op), Execute(m, op, rnd);
      var equal := m.registers[d.x] == d.kk;
      Quiet(s.out) && OnlyPcMoves(m, s.m, if equal == (d.n0 == 0x3) then 2 else 0)
  {
  }

  /** 5xyn and 9xyn, whatever n, skip the next instruction when Vx equals (5) or differs from (9) Vy. */
  lemma SkipOnRegisters(m: Machine, op: bv16, rnd: byte)
    requires CanExecute(m, op) && (Chip8Semantics.Decode(op).n0 == 0x5 || Chip8Semantics.Decode(op).n0 == 0x9)
    ensures var d, s := Chip8Semantics.Decode(op), Execute(m, op, rnd);
      var equal := m.registers[d.x] == m.registers[d.y];
      Quiet(s.out) && OnlyPcMoves(m, s.m, if equal == (d.n0 == 0x5) then 2 else 0)
  {
  }

  /** Ex9E and ExA1 skip the next instruction when the key numbered Vx is down (Ex9E) or up (ExA1). */
  lemma SkipOnKey(m: Machine, op: bv16, rnd: byte)
    requires CanExecute(m, op) && Chip8Semantics.Decode(op).n0 == 0xE
    requires Chip8Semantics.Decode(op).kk == 0x9E || Chip8Semantics.Decode(op).kk == 0xA1
    ensures var d, s := Chip8Semantics.Decode(op), Execute(m, op, rnd);
      m.registers[d.x] as int < KEY_COUNT &&
      var down := m.keys[m.registers[d.x]];
      Quiet(s.out) && OnlyPcMoves(m, s.m, if down == (d.kk == 0x9E) then 2 else 0)
  {
  }

  /** 1nnn jumps to nnn; Bnnn jumps to nnn + V0. Nothing else changes. */
  lemma Jumps(m: Machine, op: bv16, rnd: byte)
    requires CanExecute(m, op) && (Chip8Semantics.Decode(op).n0 == 0x1 || Chip8Semantics.Decode(op).n0 == 0xB)
    ensures var d, s := Chip8Semantics.Decode(op), Execute(m, op, rnd);
      && Quiet(s.out)
      && s.m == m.(pc := s.m.pc)
      && s.m.pc as int == op as int % 0x1000 + (if d.n0 == 0xB then m.registers[0] as int else 0)
  {
  }

  /**
   * 2nnn increments sp first and then stores pc, which `fetch` has already moved past the
   * call, at stack[sp]; it jumps to nnn. Slot 0 of the stack is never written.
   */
  lemma Call(m: Machine, op: bv16, rnd: byte)
    requires CanExecute(m, op) && Chip8Semantics.Decode(op).n0 == 0x2
    ensures var d, s := Chip8Semantics.Decode(op), Execute(m, op, rnd);
      && 1 <= m.sp as int + 1 < STACK_SIZE
      && Quiet(s.out)
      && s.m == m.(pc := d.nnn, sp := m.sp + 1, stack := m.stack[m.sp as int + 1 := m.pc])
      && s.m.stack[0] == m.stack[0]
  {
  }

  /** 00EE (any middle nibble) loads pc from stack[sp], then decrements sp. */
  lemma Return(m: Machine, op: bv16, rnd: byte)
    requires CanExecute(m, op) && Chip8Semantics.Decode(op).n0 == 0x0 && Chip8Semantics.Decode(op).kk == 0xEE
    ensures var s := Execute(m, op, rnd);
      && 1 <= m.sp as int < STACK_SIZE
      && Quiet(s.out)
      && s.m == m.(pc := m.stack[m.sp], sp := m.sp - 1)
  {
  }

  /**
   * A call followed by a return comes back to the pc the call was executed with, the
   * instruction after it, and restores sp; the only trace is the return address in stack[sp + 1].
   */
  lemma CallThenReturn(m: Machine, call: bv16, rnd: byte, rnd': byte)
    requires CanExecute(m, call) && Chip8Semantics.Decode(call).n0 == 0x2
    ensures CanExecute(Execute(m, call, rnd).m, 0x00EE)
    ensures Execute(Execute(m, call, rnd).m, 0x00EE, rnd').m == m.(stack := m.stack[m.sp as int + 1 := m.pc])
  {
    Call(m, call, rnd);
    var m1 := Execute(m, call, rnd).m;
    assert Chip8Semantics.Decode(0x00EE) == Chip8Semantics.Decoded(0, 0, 0xE, 0xE, 0xEE, 0xEE);
    Return(m1, 0x00EE, rnd');
  }

  /** 00E0 (any middle nibble) switches every cell off and reports every index 0 .. HOEHE * BREITE - 1 in order. */
  lemma ClearScreen(m: Machine, op: bv16, rnd: byte)
    requires CanExecute(m, op) && Chip8Semantics.Decode(op).n0 == 0x0 && Chip8Semantics.Decode(op).kk == 0xE0
    ensures var s := Execute(m, op, rnd);
      && s.out.success
      && |s.out.editedPixels| == AlterDisplay.HOEHE * AlterDisplay.BREITE
      && (forall k :: 0 <= k < |s.out.editedPixels| ==> s.out.editedPixels[k] == k)
      && (forall p :: 0 <= p < AlterDisplay.CELLS ==> !s.m.pixels[p])
      && s.m == m.(pixels := s.m.pixels)
  {
  }

  // ---------------------------------------------------------------------------------------
  // Register arithmetic

  /** s differs from m only in its registers. */
  predicate OnlyRegisters(m: Machine, s: Machine)
  {
    s == m.(registers := s.registers)
  }

  /** Every register other than x keeps its value. */
  predicate OthersKept(r: seq<byte>, r': seq<byte>, x: nat)
    requires |r| == REGISTER_COUNT && |r'| == REGISTER_COUNT
  {
    forall k :: 0 <= k < REGISTER_COUNT && k != x ==> r'[k] == r[k]
  }

  /** The registers 8xy4 .. 8xy7 and 8xyE leave, as the semantics computes them. */
  lemma ExecRegisterOp(m: Machine, op: bv16, rnd: byte)
    requires CanExecute(m, op) && Chip8Semantics.Decode(op).n0 == 0x8
    requires var n := Chip8Semantics.Decode(op).n;
      n == 0x4 || n == 0x5 || n == 0x6 || n == 0x7 || n == 0xE
    ensures Execute(m, op, rnd) == Done(m.(registers := AluOp(m.registers, Chip8Semantics.Decode(op))))
  {
  }

  /** 6xkk and 7xkk add kk to Vx in u8, and only do so when the sum fits. */
  lemma AddByteStep(m: Machine, op: bv16, rnd: byte)
    requires CanExecute(m, op) && (Chip8Semantics.Decode(op).n0 == 0x6 || Chip8Semantics.Decode(op).n0 == 0x7)
    ensures var d, s := Chip8Semantics.Decode(op), Execute(m, op, rnd);
      && Quiet(s.out) && OnlyRegisters(m, s.m)
      && s.m.registers == m.registers[d.x := m.registers[d.x] + d.kk]
      && m.registers[d.x] as int + d.kk as int <= 0xFF
  {
    var d := Chip8Semantics.Decode(op);
    assert Execute(m, op, rnd) == ExecBasic(m, d, rnd);
  }

  /** Storing a + b, which fits in a byte, into register x: only Vx changes. */
  lemma StoreSum(r: seq<byte>, x: nat, a: byte, b: byte)
    requires |r| == REGISTER_COUNT && x < 16 && a as int + b as int <= 0xFF
    ensures var r' := r[x := a + b];
      IsSum(r'[x], a, b) && OthersKept(r, r', x)
  {
    NoCarry(a, b);
  }

  /** Storing a - b, with b at most a, into register x: only Vx changes. */
  lemma StoreDifference(r: seq<byte>, x: nat, a: byte, b: byte)
    requires |r| == REGISTER_COUNT && x < 16 && a as int >= b as int
    ensures var r' := r[x := a - b];
      IsDifference(r'[x], a, b) && OthersKept(r, r', x)
  {
    NoBorrowDifference(a, b);
  }

  /** 6xkk and 7xkk both add kk to Vx, whose sum fits in a byte; no other register, VF included, changes. */
  lemma AddByte(m: Machine, op: bv16, rnd: byte)
    requires CanExecute(m, op) && (Chip8Semantics.Decode(op).n0 == 0x6 || Chip8Semantics.Decode(op).n0 == 0x7)
    ensures var d, s := Chip8Semantics.Decode(op), Execute(m, op, rnd);
      && Quiet(s.out) && OnlyRegisters(m, s.m)
      && IsSum(s.m.registers[d.x], m.registers[d.x], d.kk)
      && OthersKept(m.registers, s.m.registers, d.x)
  {
    var d := Chip8Semantics.Decode(op);
    AddByteStep(m, op, rnd);
    StoreSum(m.registers, d.x, m.registers[d.x], d.kk);
  }

  /** 6xkk does not load kk: Vx ends as kk exactly when it was zero. */
  lemma LoadIsAdd(m: Machine, op: bv16, rnd: byte)
    requires CanExecute(m, op) && Chip8Semantics.Decode(op).n0 == 0x6
    ensures var d, s := Chip8Semantics.Decode(op), Execute(m, op, rnd);
      s.m.registers[d.x] == d.kk <==> m.registers[d.x] == 0
  {
    AddByteStep(m, op, rnd);
  }

  /** Vx + Vy as 8xy4 computes it: only Vx changes. */
  lemma AddRegisters(r: seq<byte>, x: nat, y: nat)
    requires |r| == REGISTER_COUNT && x < 16 && y < 16 && r[x] as int + r[y] as int <= 0xFF
    ensures var r' := SumOp(r, x, y, 0x4);
      IsSum(r'[x], r[x], r[y]) && OthersKept(r, r', x)
  {
    StoreSum(r, x, r[x], r[y]);
  }

  /** Vx - Vy as 8xy5 computes it: only Vx changes. */
  lemma SubRegisters(r: seq<byte>, x: nat, y: nat)
    requires |r| == REGISTER_COUNT && x < 16 && y < 16 && r[x] as int >= r[y] as int
    ensures var r' := SumOp(r, x, y, 0x5);
      IsDifference(r'[x], r[x], r[y]) && OthersKept(r, r', x)
  {
    StoreDifference(r, x, r[x], r[y]);
  }

  /** 8xy4 and 8xy5 add and subtract without wrapping and set no flag: only Vx changes. */
  lemma AddSubNoFlag(m: Machine, op: bv16, rnd: byte)
    requires CanExecute(m, op) && Chip8Semantics.Decode(op).n0 == 0x8
    requires Chip8Semantics.Decode(op).n == 0x4 || Chip8Semantics.Decode(op).n == 0x5
    ensures var d, s := Chip8Semantics.Decode(op), Execute(m, op, rnd);
      var vx, vy := m.registers[d.x], m.registers[d.y];
      && Quiet(s.out) && OnlyRegisters(m, s.m)
      && (if d.n == 0x4 then IsSum(s.m.registers[d.x], vx, vy) else IsDifference(s.m.registers[d.x], vx, vy))
      && OthersKept(m.registers, s.m.registers, d.x)
  {
    var d := Chip8Semantics.Decode(op);
    ExecRegisterOp(m, op, rnd);
    if d.n == 0x4 {
      AddRegisters(m.registers, d.x, d.y);
    } else {
      SubRegisters(m.registers, d.x, d.y);
    }
  }

  /** The flag and the value of 8xy6 and 8xyE for x other than VF. */
  lemma ShiftRegisters(r: seq<byte>, x: nat, y: nat, n: nat)
    requires |r| == REGISTER_COUNT && x < 16 && y < 16 && x != VF && (n == 0x6 || n == 0xE)
    ensures var r', vx := FlagOp(r, x, y, n), r[x] as int;
      && r'[VF] as int == (if n == 0x6 then vx % 2 else vx / 128)
      && r'[x] as int == (if n == 0x6 then vx / 2 else (vx * 2) % 256)
      && (forall k :: 0 <= k < REGISTER_COUNT && k != x && k != VF ==> r'[k] == r[k])
  {
    Shifts(r[x]);
  }

  /**
   * 8xy6 and 8xyE first set VF to the lowest (8xy6) or highest (8xyE) bit of Vx, then halve or
   * double Vx modulo 256; no other register changes. Stated for x other than VF.
   */
  lemma ShiftSetsFlag(m: Machine, op: bv16, rnd: byte)
    requires CanExecute(m, op) && Chip8Semantics.Decode(op).n0 == 0x8
    requires Chip8Semantics.Decode(op).n == 0x6 || Chip8Semantics.Decode(op).n == 0xE
    requires Chip8Semantics.Decode(op).x != VF
    ensures var d, s := Chip8Semantics.Decode(op), Execute(m, op, rnd);
      var vx, r := m.registers[d.x] as int, s.m.registers;
      && Quiet(s.out) && OnlyRegisters(m, s.m)
      && r[VF] as int == (if d.n == 0x6 then vx % 2 else vx / 128)
      && r[d.x] as int == (if d.n == 0x6 then vx / 2 else (vx * 2) % 256)
      && (forall k :: 0 <= k < REGISTER_COUNT && k != d.x && k != VF ==> r[k] == m.registers[k])
  {
    var d := Chip8Semantics.Decode(op);
    ExecRegisterOp(m, op, rnd);
    ShiftRegisters(m.registers, d.x, d.y, d.n);
  }

  /** The flag and the value of 8xy7 for x and y other than VF, where a is Vx and b is Vy. */
  lemma SubtractReversedRegisters(r: seq<byte>, x: nat, y: nat, a: byte, b: byte)
    requires |r| == REGISTER_COUNT && x < 16 && y < 16 && x != VF && y != VF
    requires a == r[x] && b == r[y] && b as int >= a as int
    ensures var r' := FlagOp(r, x, y, 0x7);
      && (r'[VF] == 1 <==> b > a) && (r'[VF] == 0 <==> b <= a)
      && IsDifference(r'[x], b, a)
      && (forall k :: 0 <= k < REGISTER_COUNT && k != x && k != VF ==> r'[k] == r[k])
  {
    NoBorrowDifference(b, a);
  }

  /**
   * 8xy7 first sets VF to whether Vy > Vx, then sets Vx to Vy - Vx, which does not wrap; no
   * other register changes. Stated for x and y other than VF.
   */
  lemma SubtractReversed(m: Machine, op: bv16, rnd: byte)
    requires CanExecute(m, op) && Chip8Semantics.Decode(op).n0 == 0x8 && Chip8Semantics.Decode(op).n == 0x7
    requires Chip8Semantics.Decode(op).x != VF && Chip8Semantics.Decode(op).y != VF
    ensures var d, s := Chip8Semantics.Decode(op), Execute(m, op, rnd);
      var vx, vy, r := m.registers[d.x], m.registers[d.y], s.m.registers;
      && Quiet(s.out) && OnlyRegisters(m, s.m)
      && (r[VF] == 1 <==> vy > vx) && (r[VF] == 0 <==> vy <= vx)
      && IsDifference(r[d.x], vy, vx)
      && (forall k :: 0 <= k < REGISTER_COUNT && k != d.x && k != VF ==> r[k] == m.registers[k])
  {
    var d := Chip8Semantics.Decode(op);
    ExecRegisterOp(m, op, rnd);
    SubtractReversedRegisters(m.registers, d.x, d.y, m.registers[d.x], m.registers[d.y]);
  }

  /** Cxkk stores the random byte masked with kk: Vx has no bit that kk lacks. */
  lemma RandomMasked(m: Machine, op: bv16, rnd: byte)
    requires CanExecute(m, op) && Chip8Semantics.Decode(op).n0 == 0xC
    ensures var d, s := Chip8Semantics.Decode(op), Execute(m, op, rnd);
      && Quiet(s.out) && OnlyRegisters(m, s.m)
      && s.m.registers == m.registers[d.x := rnd & d.kk]
      && s.m.registers[d.x] & !d.kk == 0
  {
  }

  // ---------------------------------------------------------------------------------------
  // The index register, timers and keys

  /** Annn: I becomes nnn, the last three nibbles of the opcode; nothing else changes. */
  lemma SetIndex(m: Machine, op: bv16, rnd: byte)
    requires CanExecute(m, op) && Chip8Semantics.Decode(op).n0 == 0xA
    ensures var s := Execute(m, op, rnd);
      Quiet(s.out) && s.m == m.(i := s.m.i) && s.m.i as int == op as int % 0x1000
  {
    Chip8Semantics.DecodeLosesNothing(op);
  }

  /** Fx07 copies DT to Vx; Fx15 and Fx18 copy Vx to DT and to ST. */
  lemma TimerMoves(m: Machine, op: bv16, rnd: byte)
    requires CanExecute(m, op) && Chip8Semantics.Decode(op).n0 == 0xF
    requires Chip8Semantics.Decode(op).kk in {0x07, 0x15, 0x18}
    ensures var d, s := Chip8Semantics.Decode(op), Execute(m, op, rnd);
      var vx := m.registers[d.x];
      && Quiet(s.out)
      && s.m == (if d.kk == 0x07 then m.(registers := m.registers[d.x := m.dt])
                 else if d.kk == 0x15 then m.(dt := vx) else m.(st := vx))
  {
  }

  /** Fx15 followed by Fy07 copies Vx to Vy through the delay timer. */
  lemma DelayRoundTrip(m: Machine, setOp: bv16, getOp: bv16, rnd: byte, rnd': byte)
    requires CanExecute(m, setOp) && Chip8Semantics.Decode(setOp).n0 == 0xF && Chip8Semantics.Decode(setOp).kk == 0x15
    requires Chip8Semantics.Decode(getOp).n0 == 0xF && Chip8Semantics.Decode(getOp).kk == 0x07
    ensures CanExecute(Execute(m, setOp, rnd).m, getOp)
    ensures var y := Chip8Semantics.Decode(getOp).x;
      Execute(Execute(m, setOp, rnd).m, getOp, rnd').m.registers == m.registers[y := m.registers[Chip8Semantics.Decode(setOp).x]]
  {
    TimerMoves(m, setOp, rnd);
    TimerMoves(Execute(m, setOp, rnd).m, getOp, rnd');
  }

  /** Fx1E adds Vx to I; unlike the current processor it leaves VF alone. */
  lemma AddToIndex(m: Machine, op: bv16, rnd: byte)
    requires CanExecute(m, op) && Chip8Semantics.Decode(op).n0 == 0xF && Chip8Semantics.Decode(op).kk == 0x1E
    ensures var d, s := Chip8Semantics.Decode(op), Execute(m, op, rnd);
      Quiet(s.out) && s.m == m.(i := s.m.i) && s.m.i as int == m.i as int + m.registers[d.x] as int
  {
  }

  /**
   * Fx29 points I at the glyph of the register number x, not of the value in Vx: five bytes
   * per glyph from address 0, so I always lands inside the font.
   */
  lemma FontAddress(m: Machine, op: bv16, rnd: byte)
    requires CanExecute(m, op) && Chip8Semantics.Decode(op).n0 == 0xF && Chip8Semantics.Decode(op).kk == 0x29
    ensures var d, s := Chip8Semantics.Decode(op), Execute(m, op, rnd);
      && Quiet(s.out) && s.m == m.(i := s.m.i)
      && s.m.i as int == 5 * d.x
      && s.m.i as int + 5 <= FONT_SIZE
  {
  }

  /** With the font loaded, the five bytes at 5 * x are the glyph of the hexadecimal digit x. */
  lemma GlyphAt(mem: seq<byte>, x: nat)
    requires |mem| == MEM_SIZE && mem[..FONT_SIZE] == AlterDisplay.FONT && x < 16
    ensures mem[5 * x..5 * x + 5] == AlterDisplay.FONT[5 * x..5 * x + 5]
  {
    assert mem[5 * x..5 * x + 5] == mem[..FONT_SIZE][5 * x..5 * x + 5];
  }

  /** Fx0A with no current key moves pc back by one instruction; nothing else changes. */
  lemma WaitWithoutKey(m: Machine, op: bv16, rnd: byte)
    requires CanExecute(m, op) && Chip8Semantics.Decode(op).n0 == 0xF && Chip8Semantics.Decode(op).kk == 0x0A
    requires m.currentKey.None?
    ensures var s := Execute(m, op, rnd); Quiet(s.out) && OnlyPcMoves(m, s.m, -2)
  {
  }

  /**
   * Because `fetch` has already moved pc past Fx0A, moving back lands on Fx0A itself: while
   * no key is current, a tick only counts the timers down and the next tick fetches Fx0A again.
   */
  lemma WaitRefetches(m: Machine, rnd: byte)
    requires CanTick(m) && m.currentKey.None?
    requires Chip8Semantics.Decode(Fetch(m).op).n0 == 0xF && Chip8Semantics.Decode(Fetch(m).op).kk == 0x0A
    ensures Tick(m, rnd).m == DecrementTimers(m)
    ensures Fetch(Tick(m, rnd).m).op == Fetch(m).op
  {
    TickFetchesAtPc(m, rnd);
    WaitWithoutKey(DecrementTimers(m).(pc := m.pc + 2), Fetch(m).op, rnd);
  }

  /** Fx0A with a current key stores the key's byte in Vx. */
  lemma WaitWithKey(m: Machine, op: bv16, rnd: byte)
    requires CanExecute(m, op) && Chip8Semantics.Decode(op).n0 == 0xF && Chip8Semantics.Decode(op).kk == 0x0A
    requires m.currentKey.Some?
    ensures var d, s := Chip8Semantics.Decode(op), Execute(m, op, rnd);
      && Quiet(s.out) && OnlyRegisters(m, s.m)
      && s.m.registers == m.registers[d.x := m.currentKey.value]
  {
  }

  // ---------------------------------------------------------------------------------------
  // Memory

  /** The digits loop of Fx33 computes the hundreds, tens and units of its number. */
  lemma DigitsAreBcd(v: byte)
    ensures DigitsFrom(v, 3, []) == Chip8Semantics.BcdDigits(v)
  {
    assert DigitsFrom(v, 3, []) == [v / 10 / 10 % 10, v / 10 % 10, v % 10];
    assert v / 10 / 10 % 10 == v / 100;
    assert v / 10 % 10 == (v % 100) / 10;
  }

  /** Fx33 writes the hundreds, tens and units of Vx to I, I + 1 and I + 2 and nothing else. */
  lemma StoreBcd(m: Machine, op: bv16, rnd: byte)
    requires CanExecute(m, op) && Chip8Semantics.Decode(op).n0 == 0xF && Chip8Semantics.Decode(op).kk == 0x33
    ensures var d, s, i := Chip8Semantics.Decode(op), Execute(m, op, rnd), m.i as int;
      var digits := s.m.mem[i..i + 3];
      && i + 3 <= MEM_SIZE
      && Quiet(s.out) && s.m == m.(mem := s.m.mem)
      && (forall k :: 0 <= k < 3 ==> digits[k] < 10)
      && digits[0] as int * 100 + digits[1] as int * 10 + digits[2] as int == m.registers[d.x] as int
      && (forall k :: 0 <= k < MEM_SIZE && !(i <= k < i + 3) ==> s.m.mem[k] == m.mem[k])
  {
    DigitsAreBcd(m.registers[Chip8Semantics.Decode(op).x]);
  }

  /** Fx55 copies V0 .. V(x-1), not Vx, to memory from I on; nothing else changes. */
  lemma StoreRegisters(m: Machine, op: bv16, rnd: byte)
    requires CanExecute(m, op) && Chip8Semantics.Decode(op).n0 == 0xF && Chip8Semantics.Decode(op).kk == 0x55
    ensures var d, s, i := Chip8Semantics.Decode(op), Execute(m, op, rnd), m.i as int;
      && (d.x == 0 || i + d.x <= MEM_SIZE)
      && Quiet(s.out) && s.m == m.(mem := s.m.mem)
      && (d.x > 0 ==> s.m.mem[i..i + d.x] == m.registers[..d.x])
      && (forall k :: 0 <= k < MEM_SIZE && !(i <= k < i + d.x) ==> s.m.mem[k] == m.mem[k])
  {
  }

  /** Fx65 loads V0 .. V(x-1), not Vx, from memory at I; Vx .. VF keep their values. */
  lemma LoadRegisters(m: Machine, op: bv16, rnd: byte)
    requires CanExecute(m, op) && Chip8Semantics.Decode(op).n0 == 0xF && Chip8Semantics.Decode(op).kk == 0x65
    ensures var d, s, i := Chip8Semantics.Decode(op), Execute(m, op, rnd), m.i as int;
      && (d.x == 0 || i + d.x <= MEM_SIZE)
      && Quiet(s.out) && OnlyRegisters(m, s.m)
      && (forall k :: 0 <= k < d.x ==> s.m.registers[k] == m.mem[i + k])
      && (forall k :: d.x <= k < REGISTER_COUNT ==> s.m.registers[k] == m.registers[k])
  {
  }

  /**
   * Fx55 does not store Vx and Fx65 does not load it: the byte at I + x keeps its value, and so
   * does Vx, although the comment of Fx55 speaks of V0 to Vx.
   */
  lemma BlockMoveOmitsVx(m: Machine, op: bv16, rnd: byte)
    requires CanExecute(m, op) && Chip8Semantics.Decode(op).n0 == 0xF
    requires Chip8Semantics.Decode(op).kk == 0x55 || Chip8Semantics.Decode(op).kk == 0x65
    ensures var d, s, i := Chip8Semantics.Decode(op), Execute(m, op, rnd), m.i as int;
      && (d.kk == 0x55 && i + d.x < MEM_SIZE ==> s.m.mem[i + d.x] == m.mem[i + d.x])
      && (d.kk == 0x65 ==> s.m.registers[d.x] == m.registers[d.x])
  {
    if Chip8Semantics.Decode(op).kk == 0x55 {
      StoreRegisters(m, op, rnd);
    } else {
      LoadRegisters(m, op, rnd);
    }
  }

  /** Fx55 followed by Fx65 with the same x leaves every register as it was; only memory changes. */
  lemma StoreThenLoad(m: Machine, store: bv16, load: bv16, rnd: byte, rnd': byte)
    requires CanExecute(m, store) && Chip8Semantics.Decode(store).n0 == 0xF && Chip8Semantics.Decode(store).kk == 0x55
    requires Chip8Semantics.Decode(load).n0 == 0xF && Chip8Semantics.Decode(load).kk == 0x65
    requires Chip8Semantics.Decode(load).x == Chip8Semantics.Decode(store).x
    ensures CanExecute(Execute(m, store, rnd).m, load)
    ensures var s := Execute(Execute(m, store, rnd).m, load, rnd').m;
      s == m.(mem := s.mem)
  {
    StoreRegisters(m, store, rnd);
    var m1 := Execute(m, store, rnd).m;
    LoadRegisters(m1, load, rnd');
    var s := Execute(m1, load, rnd').m;
    assert s.registers == m.registers;
  }

  // ---------------------------------------------------------------------------------------
  // Keys, reset and loading

  /** `key_press` marks its key down and makes it the current key; no other key changes. */
  lemma PressMarksKey(m: Machine, key: byte)
    requires Wf(m) && key as int < KEY_COUNT
    ensures var r := KeyPress(m, key);
      && r.keys[key] && r.currentKey == Some(key)
      && (forall j :: 0 <= j < KEY_COUNT && j != key as int ==> r.keys[j] == m.keys[j])
      && r == m.(keys := r.keys, currentKey := r.currentKey)
  {
  }

  /**
   * `key_up` marks its key up and no other; the current key is cleared exactly when it was
   * the released key, and kept otherwise.
   */
  lemma UpClearsKey(m: Machine, key: byte)
    requires Wf(m) && key as int < KEY_COUNT
    ensures var r := KeyUp(m, key);
      && !r.keys[key]
      && (forall j :: 0 <= j < KEY_COUNT && j != key as int ==> r.keys[j] == m.keys[j])
      && (r.currentKey.None? <==> m.currentKey.None? || m.currentKey == Some(key))
      && (r.currentKey.Some? ==> r.currentKey == m.currentKey)
      && r == m.(keys := r.keys, currentKey := r.currentKey)
  {
  }

  /**
   * Pressing and releasing a key leaves it up with no current key; releasing another key in
   * between keeps the pressed key current.
   */
  lemma PressThenUp(m: Machine, key: byte, other: byte)
    requires Wf(m) && key as int < KEY_COUNT && other as int < KEY_COUNT && other != key
    ensures KeyUp(KeyPress(m, key), key) == m.(keys := m.keys[key := false], currentKey := None)
    ensures KeyUp(KeyPress(m, key), other).currentKey == Some(key)
  {
    var pressed := KeyPress(m, key);
    assert pressed.keys[key := false] == m.keys[key := false];
  }

  /**
   * After `reset` memory holds the font at 0 .. 79 and zeros everywhere else; pc, sp, the
   * stack and the registers are zero and the display is off. I, DT, ST and the keys are kept.
   */
  lemma ResetLayout(m: Machine)
    requires Wf(m)
    ensures var r := Reset(m);
      && r.mem[..FONT_SIZE] == AlterDisplay.FONT
      && (forall k :: FONT_SIZE <= k < MEM_SIZE ==> r.mem[k] == 0)
      && r.pc == 0 && r.sp == 0
      && (forall k :: 0 <= k < REGISTER_COUNT ==> r.registers[k] == 0)
      && (forall k :: 0 <= k < STACK_SIZE ==> r.stack[k] == 0)
      && (forall p :: 0 <= p < AlterDisplay.CELLS ==> !r.pixels[p])
      && r == m.(mem := r.mem, pc := 0, sp := 0, stack := r.stack, registers := r.registers, pixels := r.pixels)
  {
    var r := Reset(m);
    forall k | FONT_SIZE <= k < MEM_SIZE
      ensures r.mem[k] == 0
    {
      assert r.mem[k] == Zeros(MEM_SIZE)[k];
    }
  }

  /** A second `reset` changes nothing. */
  lemma ResetIdempotent(m: Machine)
    requires Wf(m)
    ensures Reset(Reset(m)) == Reset(m)
  {
  }

  /**
   * `load_rom`: everything `reset` leaves, pc at 0x200 and the ROM copied in order from 0x200
   * on; the rest of memory is the font and zeros.
   */
  lemma LoadRomLayout(m: Machine, rom: Option<seq<byte>>)
    requires Wf(m) && PROGRAM_START as int + |RomBytes(rom)| <= MEM_SIZE
    ensures var r, start, data := LoadRom(m, rom), PROGRAM_START as int, RomBytes(rom);
      && r.mem[start..start + |data|] == data
      && r.mem[..FONT_SIZE] == AlterDisplay.FONT
      && (forall k :: FONT_SIZE <= k < MEM_SIZE && !(start <= k < start + |data|) ==> r.mem[k] == 0)
      && r == Reset(m).(pc := PROGRAM_START, mem := r.mem)
  {
    var r, z := LoadRom(m, rom), Reset(m);
    ResetLayout(m);
    assert r.mem[..FONT_SIZE] == z.mem[..FONT_SIZE];
    forall k | FONT_SIZE <= k < MEM_SIZE && !(PROGRAM_START as int <= k < PROGRAM_START as int + |RomBytes(rom)|)
      ensures r.mem[k] == 0
    {
      assert r.mem[k] == z.mem[k];
    }
  }

  /** Loading no ROM into a new machine gives that machine back: `new` is `load_rom(None)` on it. */
  lemma LoadNothingIsInitial()
    ensures LoadRom(Initial(), None) == Initial()
  {
    var z := Reset(Initial());
    assert WriteBlock(z.mem, PROGRAM_START as int, []) == z.mem;
  }
}
