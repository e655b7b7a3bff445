/**
 * What each instruction of the current processor does to the whole machine, one lemma per
 * group of opcodes: the registers, memory and stack it changes, stated in plain integer
 * arithmetic where the source works on u8 and u16, and how it moves pc. Everything a lemma
 * does not mention stays as it was.
 */
module Chip8Instructions {
  import opened Bits
  import opened Chip8Semantics
  import Chip8Properties

  /** s differs from m only in pc, which moved by `delta` bytes. */
  predicate OnlyPcMoves(m: Machine, s: Machine, delta: int)
  {
    s == m.(pc := s.pc) && s.pc as int == m.pc as int + delta
  }

  /** s differs from m only in its registers and in pc, which moved to the next instruction. */
  predicate RegistersAndNext(m: Machine, s: Machine)
  {
    s == m.(pc := s.pc, registers := s.registers) && s.pc as int == m.pc as int + OPCODE_SIZE
  }

  /** An unrecognised opcode reports failure, changes nothing and pc moves on by one instruction. */
  lemma InvalidOpcode(m: Machine, op: bv16, rnd: byte)
    requires CanExecute(m, op, rnd) && !Recognized(op)
    ensures var s := Exec(m, op, rnd); !s.success && OnlyPcMoves(m, s.m, OPCODE_SIZE)
  {
    Chip8Properties.SuccessIffRecognized(m, op, rnd);
  }

  /** 3xkk and 4xkk skip the next instruction when Vx equals (3xkk) or differs from (4xkk) kk. */
  lemma SkipOnByte(m: Machine, op: bv16, rnd: byte)
    requires CanExecute(m, op, rnd) && Decode(op).n0 in {0x3, 0x4}
    ensures var d, s := Decode(op), Exec(m, op, rnd);
      var equal := m.registers[d.x] == d.kk;
      s.success && OnlyPcMoves(m, s.m, if equal == (d.n0 == 0x3) then 2 * OPCODE_SIZE else OPCODE_SIZE)
  {
  }

  /** 5xy0 and 9xy0 skip the next instruction when Vx equals (5xy0) or differs from (9xy0) Vy. */
  lemma SkipOnRegisters(m: Machine, op: bv16, rnd: byte)
    requires CanExecute(m, op, rnd) && Decode(op).n0 in {0x5, 0x9} && Decode(op).n == 0
    ensures var d, s := Decode(op), Exec(m, op, rnd);
      var equal := m.registers[d.x] == m.registers[d.y];
      s.success && OnlyPcMoves(m, s.m, if equal == (d.n0 == 0x5) then 2 * OPCODE_SIZE else OPCODE_SIZE)
  {
  }

  /** Ex9E and ExA1 skip the next instruction when the key numbered Vx is down (Ex9E) or up (ExA1). */
  lemma SkipOnKey(m: Machine, op: bv16, rnd: byte)
    requires CanExecute(m, op, rnd) && Decode(op).n0 == 0xE
    requires (Decode(op).y, Decode(op).n) in {(0x9, 0xE), (0xA, 0x1)}
    ensures var d, s := Decode(op), Exec(m, op, rnd);
      m.registers[d.x] as int < KEY_COUNT &&
      var down := m.keys[m.registers[d.x]];
      s.success && OnlyPcMoves(m, s.m, if down == (d.y == 0x9) then 2 * OPCODE_SIZE else OPCODE_SIZE)
  {
  }

  /** 00E0 switches every cell of the display off. */
  lemma ClearScreen(m: Machine, op: bv16, rnd: byte)
    requires CanExecute(m, op, rnd) && op == 0x00E0
    ensures var s := Exec(m, op, rnd);
      s.success && s.m.pixels == AllOff(Chip8Display.CELLS) && OnlyPcMoves(m, s.m.(pixels := m.pixels), OPCODE_SIZE)
  {
  }

  /** 1nnn jumps to nnn; Bnnn jumps to nnn + V0. Nothing else changes. */
  lemma Jumps(m: Machine, op: bv16, rnd: byte)
    requires CanExecute(m, op, rnd) && Decode(op).n0 in {0x1, 0xB}
    ensures var d, s := Decode(op), Exec(m, op, rnd);
      && s.success
      && s.m == m.(pc := s.m.pc)
      && s.m.pc as int == d.nnn + (if d.n0 == 0xB then m.registers[V0] as int else 0)
      && s.m.pc as int == op as int % 0x1000 + (if d.n0 == 0xB then m.registers[V0] as int else 0)
  {
    DecodeLosesNothing(op);
  }

  /** The return address 2nnn pushes: the next instruction, cut to 16 bits. */
  function ReturnAddress(pc: u16): (a: u16)
    ensures pc as int + OPCODE_SIZE < 0x1_0000 ==> a as int == pc as int + OPCODE_SIZE
  {
    (pc as int + OPCODE_SIZE) % 0x1_0000
  }

  /** 2nnn stores the return address at stack[sp], increments sp and jumps to nnn. */
  lemma Call(m: Machine, op: bv16, rnd: byte)
    requires CanExecute(m, op, rnd) && Decode(op).n0 == 0x2
    ensures var d, s := Decode(op), Exec(m, op, rnd);
      && m.sp as int < STACK_SIZE
      && s.success
      && s.m == m.(pc := d.nnn, sp := m.sp + 1, stack := m.stack[m.sp := ReturnAddress(m.pc)])
  {
  }

  /** 00EE decrements sp and jumps to the address stored there. */
  lemma Return(m: Machine, op: bv16, rnd: byte)
    requires CanExecute(m, op, rnd) && op == 0x00EE
    ensures var s := Exec(m, op, rnd);
      && 1 <= m.sp as int <= STACK_SIZE
      && s.success
      && s.m == m.(pc := m.stack[m.sp - 1], sp := m.sp - 1)
  {
    assert Decode(op) == Decoded(0, 0, 0xE, 0xE, 0xEE, 0xEE);
  }

  /**
   * A call followed by a return comes back to the instruction after the call with the stack
   * pointer restored; the only trace left is the return address in the stack slot used.
   */
  lemma CallThenReturn(m: Machine, call: bv16, rnd: byte, rnd': byte)
    requires CanExecute(m, call, rnd) && Decode(call).n0 == 0x2
    ensures CanExecute(Exec(m, call, rnd).m, 0x00EE, rnd')
    ensures Exec(Exec(m, call, rnd).m, 0x00EE, rnd').m == m.(pc := ReturnAddress(m.pc), stack := m.stack[m.sp := ReturnAddress(m.pc)])
  {
    Call(m, call, rnd);
    var m1 := Exec(m, call, rnd).m;
    assert Decode(0x00EE) == Decoded(0, 0, 0xE, 0xE, 0xEE, 0xEE);
    assert HandlerDefined(m1, 0x00EE);
    Return(m1, 0x00EE, rnd');
  }

  // ---------------------------------------------------------------------------------------
  // Register arithmetic

  /** Every register other than x and VF keeps its value. */
  predicate OthersKept(r: seq<byte>, r': seq<byte>, x: nat)
    requires |r| == REGISTER_SIZE && |r'| == REGISTER_SIZE
  {
    forall k :: 0 <= k < REGISTER_SIZE && k != x && k != VF ==> r'[k] == r[k]
  }

  /** 6xkk loads kk into Vx. */
  lemma LoadByte(m: Machine, op: bv16, rnd: byte)
    requires CanExecute(m, op, rnd) && Decode(op).n0 == 0x6
    ensures var d, s := Decode(op), Exec(m, op, rnd);
      s.success && RegistersAndNext(m, s.m) && s.m.registers == m.registers[d.x := d.kk]
  {
  }

  /** 7xkk adds kk to Vx as a u8 (wrapping) and leaves every other register, VF included, alone. */
  lemma AddByte(m: Machine, op: bv16, rnd: byte)
    requires CanExecute(m, op, rnd) && Decode(op).n0 == 0x7
    ensures var d, s := Decode(op), Exec(m, op, rnd);
      s.success && RegistersAndNext(m, s.m) && s.m.registers == m.registers[d.x := m.registers[d.x] + d.kk]
  {
  }

  /** The register file 7xkk leaves: Vx is Vx + kk modulo 256, there is no carry. */
  lemma AddByteWraps(r: seq<byte>, r': seq<byte>, x: nat, kk: byte)
    requires |r| == REGISTER_SIZE && x < 16 && r' == r[x := r[x] + kk]
    ensures r'[x] as int == (r[x] as int + kk as int) % 256
    ensures forall k :: 0 <= k < REGISTER_SIZE && k != x ==> r'[k] == r[k]
  {
    SumIs(r[x], kk, r'[x]);
  }

  /** The 8xy_ arms that set VF run FlagOp on the registers and move to the next instruction. */
  lemma ExecFlagOp(m: Machine, op: bv16, rnd: byte)
    requires CanExecute(m, op, rnd) && Decode(op).n0 == 0x8 && Decode(op).n in {0x4, 0x5, 0x6, 0x7, 0xE}
    ensures var d, s := Decode(op), Exec(m, op, rnd);
      s.success && RegistersAndNext(m, s.m) && s.m.registers == FlagOp(m.registers, d.x, d.y, d.n)
  {
  }

  /** 8xy4: Vx becomes Vx + Vy modulo 256 and VF the carry; for x = 15 the carry wins. */
  lemma AddWithCarry(r: seq<byte>, x: nat, y: nat)
    requires |r| == REGISTER_SIZE && x < 16 && y < 16
    ensures var r', sum := FlagOp(r, x, y, 0x4), r[x] as int + r[y] as int;
      && r'[VF] as int == sum / 256
      && (x != VF ==> r'[x] as int == sum % 256)
      && OthersKept(r, r', x)
  {
    CarryBit(r, x, y);
    if x != VF {
      SumByte(r, x, y);
    }
  }

  lemma CarryBit(r: seq<byte>, x: nat, y: nat)
    requires |r| == REGISTER_SIZE && x < 16 && y < 16
    ensures FlagOp(r, x, y, 0x4)[VF] as int == (r[x] as int + r[y] as int) / 256
  {
    WideSumBits(r[x], r[y]);
    FlagValue(r[x] as int + r[y] as int > 0xFF);
    CarryQuotient(r[x] as int + r[y] as int);
  }

  lemma SumByte(r: seq<byte>, x: nat, y: nat)
    requires |r| == REGISTER_SIZE && x < 16 && y < 16 && x != VF
    ensures FlagOp(r, x, y, 0x4)[x] as int == (r[x] as int + r[y] as int) % 256
  {
    SumBits(r, x, y);
    SumIs(r[x], r[y], FlagOp(r, x, y, 0x4)[x]);
  }

  lemma SumBits(r: seq<byte>, x: nat, y: nat)
    requires |r| == REGISTER_SIZE && x < 16 && y < 16 && x != VF
    ensures FlagOp(r, x, y, 0x4)[x] == r[x] + r[y]
  {
    WideSumBits(r[x], r[y]);
  }

  /** 8xy5: VF becomes 1 exactly when Vx > Vy (strictly), then Vx becomes Vx - Vy modulo 256. */
  lemma SubWithFlag(r: seq<byte>, x: nat, y: nat)
    requires |r| == REGISTER_SIZE && x < 16 && y < 16 && x != VF && y != VF
    ensures var r', vx, vy := FlagOp(r, x, y, 0x5), r[x] as int, r[y] as int;
      && r'[VF] as int == (if vx > vy then 1 else 0)
      && r'[x] as int == (vx - vy) % 256
      && OthersKept(r, r', x)
  {
    NoBorrowBit(r, x, y, 0x5);
    DifferenceByte(r, x, y, 0x5);
  }

  /** 8xy7: VF becomes 1 exactly when Vy > Vx, then Vx becomes Vy - Vx modulo 256. */
  lemma SubReversedWithFlag(r: seq<byte>, x: nat, y: nat)
    requires |r| == REGISTER_SIZE && x < 16 && y < 16 && x != VF && y != VF
    ensures var r', vx, vy := FlagOp(r, x, y, 0x7), r[x] as int, r[y] as int;
      && r'[VF] as int == (if vy > vx then 1 else 0)
      && r'[x] as int == (vy - vx) % 256
      && OthersKept(r, r', x)
  {
    NoBorrowBit(r, x, y, 0x7);
    DifferenceByte(r, x, y, 0x7);
  }

  /** The flag of 8xy5 (Vx > Vy) and of 8xy7 (Vy > Vx), as 0 or 1. */
  lemma NoBorrowBit(r: seq<byte>, x: nat, y: nat, n: nat)
    requires |r| == REGISTER_SIZE && x < 16 && y < 16 && x != VF && y != VF && n in {0x5, 0x7}
    ensures var a, b := if n == 0x5 then r[x] else r[y], if n == 0x5 then r[y] else r[x];
      FlagOp(r, x, y, n)[VF] as int == (if a as int > b as int then 1 else 0)
  {
    var a, b := if n == 0x5 then r[x] else r[y], if n == 0x5 then r[y] else r[x];
    Compare(a, b);
    FlagValue(a > b);
  }

  /** The difference 8xy5 (Vx - Vy) and 8xy7 (Vy - Vx) leave in Vx, modulo 256. */
  lemma DifferenceByte(r: seq<byte>, x: nat, y: nat, n: nat)
    requires |r| == REGISTER_SIZE && x < 16 && y < 16 && x != VF && y != VF && n in {0x5, 0x7}
    ensures var a, b := if n == 0x5 then r[x] else r[y], if n == 0x5 then r[y] else r[x];
      FlagOp(r, x, y, n)[x] as int == (a as int - b as int) % 256
  {
    var a, b := if n == 0x5 then r[x] else r[y], if n == 0x5 then r[y] else r[x];
    SubWraps(a, b);
  }

  /** 8xy6 and 8xyE: VF becomes the bit shifted out, Vx is halved or doubled modulo 256. */
  lemma ShiftWithFlag(r: seq<byte>, x: nat, y: nat)
    requires |r| == REGISTER_SIZE && x < 16 && y < 16 && x != VF
    ensures var right, left, vx := FlagOp(r, x, y, 0x6), FlagOp(r, x, y, 0xE), r[x] as int;
      && right[VF] as int == vx % 2 && right[x] as int == vx / 2 && OthersKept(r, right, x)
      && left[VF] as int == vx / 128 && left[x] as int == (vx * 2) % 256 && OthersKept(r, left, x)
  {
    Shifts(r[x]);
  }

  /** 8xy0 .. 8xy3 write Vx alone; applying 8xy3 twice with the same Vy gives Vx back. */
  lemma XorTwice(r: seq<byte>, x: nat, y: nat)
    requires |r| == REGISTER_SIZE && x < 16 && y < 16 && x != y
    ensures LogicOp(LogicOp(r, x, y, 0x3), x, y, 0x3) == r
  {
    var once := LogicOp(r, x, y, 0x3);
    assert once == r[x := r[x] ^ r[y]];
    XorCancels(r[x], r[y]);
    assert LogicOp(once, x, y, 0x3) == once[x := (r[x] ^ r[y]) ^ r[y]];
  }

  lemma XorCancels(a: byte, b: byte)
    ensures (a ^ b) ^ b == a
  {
  }

  /** Cxkk: Vx becomes the random byte masked with kk, so it has no bit that kk lacks. */
  lemma RandomMasked(m: Machine, op: bv16, rnd: byte)
    requires CanExecute(m, op, rnd) && Decode(op).n0 == 0xC
    ensures var d, s := Decode(op), Exec(m, op, rnd);
      && s.success && RegistersAndNext(m, s.m)
      && s.m.registers == m.registers[d.x := rnd & d.kk]
      && s.m.registers[d.x] & !d.kk == 0
  {
  }

  // ---------------------------------------------------------------------------------------
  // The index register, timers and keys

  /** Annn: I becomes nnn, the last three nibbles of the opcode. */
  lemma SetIndex(m: Machine, op: bv16, rnd: byte)
    requires CanExecute(m, op, rnd) && Decode(op).n0 == 0xA
    ensures var s := Exec(m, op, rnd);
      && s.success
      && s.m == m.(pc := s.m.pc, iReg := s.m.iReg)
      && s.m.pc as int == m.pc as int + OPCODE_SIZE
      && s.m.iReg as int == op as int % 0x1000
  {
  }

  /** Fx07 copies DT to Vx; Fx15 and Fx18 copy Vx to DT and to ST. */
  lemma TimerMoves(m: Machine, op: bv16, rnd: byte)
    requires CanExecute(m, op, rnd) && Decode(op).n0 == 0xF
    requires (Decode(op).y, Decode(op).n) in {(0x0, 0x7), (0x1, 0x5), (0x1, 0x8)}
    ensures var d, s := Decode(op), Exec(m, op, rnd);
      var r := m.registers;
      && s.success && RegistersAndNext(m, s.m)
      && s.m.registers == (if d.n == 0x7 then r[d.x := r[DT]] else if d.n == 0x5 then r[DT := r[d.x]] else r[ST := r[d.x]])
  {
  }

  /** Fx1E adds Vx to I; VF becomes 1 exactly when the new I is above 0xF00. */
  lemma AddToIndex(m: Machine, op: bv16, rnd: byte)
    requires CanExecute(m, op, rnd) && Decode(op).n0 == 0xF && (Decode(op).y, Decode(op).n) == (0x1, 0xE)
    ensures var d, s := Decode(op), Exec(m, op, rnd);
      && s.success
      && s.m == m.(pc := s.m.pc, iReg := s.m.iReg, registers := s.m.registers)
      && s.m.pc as int == m.pc as int + OPCODE_SIZE
      && s.m.iReg as int == m.iReg as int + m.registers[d.x] as int
      && s.m.registers == m.registers[VF := s.m.registers[VF]]
      && (s.m.registers[VF] == 1 <==> s.m.iReg as int > 0xF00)
      && (s.m.registers[VF] == 0 <==> s.m.iReg as int <= 0xF00)
  {
  }

  /** Fx29 points I at the glyph of the digit in Vx: five bytes per glyph, from address 0. */
  lemma FontAddress(m: Machine, op: bv16, rnd: byte)
    requires CanExecute(m, op, rnd) && Decode(op).n0 == 0xF && (Decode(op).y, Decode(op).n) == (0x2, 0x9)
    ensures var d, s := Decode(op), Exec(m, op, rnd);
      && s.success
      && s.m == m.(pc := s.m.pc, iReg := s.m.iReg)
      && s.m.pc as int == m.pc as int + OPCODE_SIZE
      && s.m.iReg as int == 5 * m.registers[d.x] as int
  {
  }

  /** With the font loaded, the five bytes from 5 * v on are the glyph of the hexadecimal digit v. */
  lemma GlyphAt(ram: seq<byte>, v: nat)
    requires |ram| == RAM_SIZE && ram[..FONT_SIZE] == Chip8Display.FONT && v < 16
    ensures ram[5 * v..5 * v + 5] == Chip8Display.FONT[5 * v..5 * v + 5]
  {
    assert ram[5 * v..5 * v + 5] == ram[..FONT_SIZE][5 * v..5 * v + 5];
  }

  /** Fx0A with no key down leaves everything but pc, which moves back by one instruction. */
  lemma WaitWithoutKey(m: Machine, op: bv16, rnd: byte)
    requires CanExecute(m, op, rnd) && Decode(op).n0 == 0xF && (Decode(op).y, Decode(op).n) == (0x0, 0xA)
    requires m.currentKey.None?
    ensures var s := Exec(m, op, rnd); s.success && OnlyPcMoves(m, s.m, -(OPCODE_SIZE as int))
  {
  }

  /**
   * Because `fetch` leaves pc at Fx0A, moving back one instruction makes the next fetch read
   * the word before Fx0A, not Fx0A itself: that earlier instruction runs again on every tick
   * spent waiting.
   */
  lemma WaitRefetchesPrevious(m: Machine, rnd: byte)
    requires Wf(m) && m.pc as int + 1 < RAM_SIZE && m.currentKey.None?
    requires CanExecute(m, Fetch(m), rnd) && Decode(Fetch(m)).n0 == 0xF && (Decode(Fetch(m)).y, Decode(Fetch(m)).n) == (0x0, 0xA)
    ensures var s := Exec(m, Fetch(m), rnd).m;
      && OPCODE_SIZE <= m.pc as int
      && s.pc as int + OPCODE_SIZE == m.pc as int
      && (Fetch(s) >> 8) as byte == m.ram[m.pc as int - 2]
      && (Fetch(s) & 0xFF) as byte == m.ram[m.pc as int - 1]
  {
    var op := Fetch(m);
    WaitWithoutKey(m, op, rnd);
    var s := Exec(m, op, rnd).m;
    assert s.ram == m.ram && s.pc as int == m.pc as int - 2;
  }

  /** Fx0A with a current key stores the key's position in the `Key` enum in Vx. */
  lemma WaitWithKey(m: Machine, op: bv16, rnd: byte)
    requires CanExecute(m, op, rnd) && Decode(op).n0 == 0xF && (Decode(op).y, Decode(op).n) == (0x0, 0xA)
    requires m.currentKey.Some?
    ensures var d, s := Decode(op), Exec(m, op, rnd);
      && s.success && RegistersAndNext(m, s.m)
      && s.m.registers == m.registers[d.x := KeyIndex(m.currentKey.value) as byte]
      && s.m.registers[d.x] as int == KeyIndex(m.currentKey.value)
  {
    KeyByte(m.currentKey.value);
  }

  /** The enum position of a key survives the cast to u8. */
  lemma KeyByte(k: Key)
    ensures (KeyIndex(k) as byte) as int == KeyIndex(k)
  {
    match k
    case K1 => case K2 => case K3 => case K4 => case K5 => case K6 => case K7 => case K8 =>
    case K9 => case K0 => case KA => case KB => case KC => case KD => case KE => case KF =>
  }

  // ---------------------------------------------------------------------------------------
  // Memory

  /** s differs from m only in its RAM and in pc, which moved to the next instruction. */
  predicate RamAndNext(m: Machine, s: Machine)
  {
    s == m.(pc := s.pc, ram := s.ram) && s.pc as int == m.pc as int + OPCODE_SIZE
  }

  /** Fx33 writes the hundreds, tens and units of Vx to I, I + 1 and I + 2. */
  lemma StoreBcd(m: Machine, op: bv16, rnd: byte)
    requires CanExecute(m, op, rnd) && Decode(op).n0 == 0xF && (Decode(op).y, Decode(op).n) == (0x3, 0x3)
    ensures var d, s, i := Decode(op), Exec(m, op, rnd), m.iReg as int;
      && i + 3 <= RAM_SIZE
      && s.success && RamAndNext(m, s.m)
      && s.m.ram[i..i + 3] == BcdDigits(m.registers[d.x])
      && (forall k :: 0 <= k < RAM_SIZE && !(i <= k < i + 3) ==> s.m.ram[k] == m.ram[k])
  {
  }

  /** Fx55 writes all 18 registers (V0 .. VF and the two timers) to RAM from I on. */
  lemma StoreRegisters(m: Machine, op: bv16, rnd: byte)
    requires CanExecute(m, op, rnd) && Decode(op).n0 == 0xF && (Decode(op).y, Decode(op).n) == (0x5, 0x5)
    ensures var s, i := Exec(m, op, rnd), m.iReg as int;
      && i + REGISTER_SIZE <= RAM_SIZE
      && s.success && RamAndNext(m, s.m)
      && s.m.ram[i..i + REGISTER_SIZE] == m.registers
      && (forall k :: 0 <= k < RAM_SIZE && !(i <= k < i + REGISTER_SIZE) ==> s.m.ram[k] == m.ram[k])
  {
  }

  /** Fx65 reads all 18 registers back from RAM at I. */
  lemma LoadRegisters(m: Machine, op: bv16, rnd: byte)
    requires CanExecute(m, op, rnd) && Decode(op).n0 == 0xF && (Decode(op).y, Decode(op).n) == (0x6, 0x5)
    ensures var s, i := Exec(m, op, rnd), m.iReg as int;
      && i + REGISTER_SIZE <= RAM_SIZE
      && s.success && RegistersAndNext(m, s.m)
      && s.m.registers == m.ram[i..i + REGISTER_SIZE]
  {
  }

  /**
   * Fx55 followed by Fx65 (any x: both copy every register) leaves the registers as they
   * were; only RAM from I on and pc change.
   */
  lemma StoreThenLoad(m: Machine, store: bv16, load: bv16, rnd: byte, rnd': byte)
    requires CanExecute(m, store, rnd) && Decode(store).n0 == 0xF && (Decode(store).y, Decode(store).n) == (0x5, 0x5)
    requires Decode(load).n0 == 0xF && (Decode(load).y, Decode(load).n) == (0x6, 0x5)
    requires m.pc as int + 2 * OPCODE_SIZE < 0x1_0000
    ensures CanExecute(Exec(m, store, rnd).m, load, rnd')
    ensures var s := Exec(Exec(m, store, rnd).m, load, rnd').m;
      s.registers == m.registers && s == m.(pc := s.pc, ram := s.ram) && s.pc as int == m.pc as int + 2 * OPCODE_SIZE
  {
    StoreRegisters(m, store, rnd);
    var m1 := Exec(m, store, rnd).m;
    assert HandlerDefined(m1, load);
    LoadRegisters(m1, load, rnd');
  }
}
