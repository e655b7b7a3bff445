/**
 * Corrected definitions for the places where the code of the two processors does something
 * other than what the comment beside it says. The classes and the value semantics model the
 * code as written; each definition here differs from them only in the opcodes concerned, is
 * proved to agree with them on every other opcode, and is proved to have the property the
 * comment describes.
 */
module Corrections {
  import opened Bits
  import Chip8Semantics
  import Chip8Display
  import AlterSemantics
  import AlterDisplay
  import AlterProperties

  // ---------------------------------------------------------------------------------------
  // Current processor, Fx0A: "blocking" is meant to bring the next tick back to Fx0A.

  /** Fx0A, the wait for a key. */
  predicate IsWait(op: bv16)
  {
    var d := Chip8Semantics.Decode(op);
    d.n0 == 0xF && d.y == 0x0 && d.n == 0xA
  }

  /** The pc update with Block leaving pc on the blocked instruction; the other outcomes as written. */
  function IntendedPcStep(pc: u16, change: Chip8Semantics.ProgramCounter): (r: u16)
    requires change.Block? || Chip8Semantics.PcStepDefined(pc, change)
  {
    if change.Block? then pc else Chip8Semantics.PcStep(pc, change)
  }

  /** The corrected `execute` would not panic: as written, except that Block no longer subtracts. */
  predicate CanExecuteIntended(m: Chip8Semantics.Machine, op: bv16, rnd: byte)
  {
    && Chip8Semantics.Wf(m) && Chip8Semantics.HandlerDefined(m, op)
    && var change := Chip8Semantics.Handle(m, op, rnd).change;
       change.Block? || Chip8Semantics.PcStepDefined(m.pc, change)
  }

  /** `execute` with the corrected pc update. */
  function IntendedExec(m: Chip8Semantics.Machine, op: bv16, rnd: byte): (s: Chip8Semantics.Step)
    requires CanExecuteIntended(m, op, rnd)
    ensures Chip8Semantics.Wf(s.m)
  {
    var e := Chip8Semantics.Handle(m, op, rnd);
    Chip8Semantics.Step(e.m.(pc := IntendedPcStep(m.pc, e.change)), e.success)
  }

  /** Only Fx0A with no current key blocks. */
  lemma BlockIsWaitWithoutKey(m: Chip8Semantics.Machine, op: bv16, rnd: byte)
    requires Chip8Semantics.Wf(m) && Chip8Semantics.HandlerDefined(m, op)
    ensures Chip8Semantics.Handle(m, op, rnd).change.Block? <==> IsWait(op) && m.currentKey.None?
  {
    var d := Chip8Semantics.Decode(op);
    match d.n0
    case 0x0 => SystemNeverBlocks(m, d);
    case 0x8 => AluNeverBlocks(m, d);
    case 0xD =>
    case 0xE => KeysNeverBlock(m, d);
    case 0xF => MiscBlocks(m, d);
    case _ => BasicNeverBlocks(m, d, rnd);
  }

  /** 00E0, 00EE and the unrecognised 0___ opcodes never block. */
  lemma SystemNeverBlocks(m: Chip8Semantics.Machine, d: Chip8Semantics.Decoded)
    requires Chip8Semantics.Wf(m) && d.n0 == 0 && d.x < 16 && d.y < 16 && d.n < 16 && Chip8Semantics.SystemDefined(m, d)
    ensures !Chip8Semantics.HandleSystem(m, d).change.Block?
  {
  }

  /** No 8xy_ opcode blocks. */
  lemma AluNeverBlocks(m: Chip8Semantics.Machine, d: Chip8Semantics.Decoded)
    requires Chip8Semantics.Wf(m) && d.x < 16 && d.y < 16
    ensures !Chip8Semantics.HandleAlu(m, d).change.Block?
  {
  }

  /** Ex9E, ExA1 and the unrecognised Ex__ opcodes only skip or advance. */
  lemma KeysNeverBlock(m: Chip8Semantics.Machine, d: Chip8Semantics.Decoded)
    requires Chip8Semantics.Wf(m) && d.x < 16 && Chip8Semantics.KeysDefined(m, d)
    ensures !Chip8Semantics.HandleKeys(m, d).change.Block?
  {
  }

  /** 1nnn .. Cxkk advance, skip or jump, and never block. */
  lemma BasicNeverBlocks(m: Chip8Semantics.Machine, d: Chip8Semantics.Decoded, rnd: byte)
    requires Chip8Semantics.Wf(m) && d.x < 16 && d.y < 16 && d.nnn < 0x1000 && Chip8Semantics.BasicDefined(m, d)
    ensures !Chip8Semantics.HandleBasic(m, d, rnd).change.Block?
  {
  }

  /** Among the Fx__ opcodes, only Fx0A blocks, and only while no key is current. */
  lemma MiscBlocks(m: Chip8Semantics.Machine, d: Chip8Semantics.Decoded)
    requires Chip8Semantics.Wf(m) && d.x < 16 && Chip8Semantics.MiscDefined(m, d)
    ensures Chip8Semantics.HandleMisc(m, d).change.Block? <==> (d.y, d.n) == (0x0, 0xA) && m.currentKey.None?
  {
  }

  /** On every opcode but a blocked Fx0A the corrected `execute` is the one as written. */
  lemma IntendedExecAgrees(m: Chip8Semantics.Machine, op: bv16, rnd: byte)
    requires Chip8Semantics.CanExecute(m, op, rnd) && !(IsWait(op) && m.currentKey.None?)
    ensures CanExecuteIntended(m, op, rnd)
    ensures IntendedExec(m, op, rnd) == Chip8Semantics.Exec(m, op, rnd)
  {
    BlockIsWaitWithoutKey(m, op, rnd);
  }

  /**
   * With the correction, Fx0A with no key down changes nothing at all, so the next fetch reads
   * Fx0A again, also at pc 0, where the code as written would underflow.
   */
  lemma IntendedWaitRefetches(m: Chip8Semantics.Machine, rnd: byte)
    requires Chip8Semantics.Wf(m) && m.pc as int + 1 < Chip8Semantics.RAM_SIZE && m.currentKey.None?
    requires IsWait(Chip8Semantics.Fetch(m))
    ensures CanExecuteIntended(m, Chip8Semantics.Fetch(m), rnd)
    ensures IntendedExec(m, Chip8Semantics.Fetch(m), rnd) == Chip8Semantics.Step(m, true)
    ensures Chip8Semantics.Fetch(IntendedExec(m, Chip8Semantics.Fetch(m), rnd).m) == Chip8Semantics.Fetch(m)
  {
    BlockIsWaitWithoutKey(m, Chip8Semantics.Fetch(m), rnd);
  }

  // ---------------------------------------------------------------------------------------
  // Older CPU: 6xkk loads kk, Fx29 uses the value of Vx, Fx55 and Fx65 include Vx.

  /** 6xkk. */
  predicate IsLoadByte(op: bv16)
  {
    Chip8Semantics.Decode(op).n0 == 0x6
  }

  /** Fx29. */
  predicate IsFontAddress(op: bv16)
  {
    var d := Chip8Semantics.Decode(op);
    d.n0 == 0xF && d.kk == 0x29
  }

  /** Fx55 or Fx65. */
  predicate IsBlockMove(op: bv16)
  {
    var d := Chip8Semantics.Decode(op);
    d.n0 == 0xF && (d.kk == 0x55 || d.kk == 0x65)
  }

  /** One of the opcodes the corrected CPU does differently. */
  predicate IsCorrected(op: bv16)
  {
    IsLoadByte(op) || IsFontAddress(op) || IsBlockMove(op)
  }

  /**
   * The corrected `execute(op)` would not panic: 6xkk and Fx29 can no longer overflow, and
   * Fx55 and Fx65 need memory for V0 .. Vx; every other opcode as written.
   */
  predicate CanExecuteIntendedCpu(m: AlterSemantics.Machine, op: bv16)
  {
    && AlterSemantics.Wf(m)
    && (IsBlockMove(op) ==> m.i as int + Chip8Semantics.Decode(op).x + 1 <= AlterSemantics.MEM_SIZE)
    && (!IsCorrected(op) ==> AlterSemantics.CanExecute(m, op))
  }

  /** `execute(op)` of the older CPU with the four corrected arms. */
  function IntendedExecute(m: AlterSemantics.Machine, op: bv16, rnd: byte): (s: AlterSemantics.Step)
    requires CanExecuteIntendedCpu(m, op)
    ensures AlterSemantics.Wf(s.m)
  {
    var d := Chip8Semantics.Decode(op);
    var r := m.registers;
    if IsLoadByte(op) then AlterSemantics.Done(m.(registers := r[d.x := d.kk]))
    else if IsFontAddress(op) then AlterSemantics.Done(m.(i := 5 * r[d.x] as int))
    else if IsBlockMove(op) && d.kk == 0x55 then
      AlterSemantics.Done(m.(mem := AlterSemantics.WriteBlock(m.mem, m.i as int, r[..d.x + 1])))
    else if IsBlockMove(op) then
      AlterSemantics.Done(m.(registers := m.mem[m.i..m.i as int + d.x + 1] + r[d.x + 1..]))
    else AlterSemantics.Execute(m, op, rnd)
  }

  /** On every other opcode the corrected `execute` is the one as written. */
  lemma IntendedExecuteAgrees(m: AlterSemantics.Machine, op: bv16, rnd: byte)
    requires AlterSemantics.CanExecute(m, op) && !IsCorrected(op)
    ensures CanExecuteIntendedCpu(m, op)
    ensures IntendedExecute(m, op, rnd) == AlterSemantics.Execute(m, op, rnd)
  {
  }

  /** Corrected 6xkk: Vx becomes kk whatever it held, and nothing else changes. */
  lemma IntendedLoadByte(m: AlterSemantics.Machine, op: bv16, rnd: byte)
    requires AlterSemantics.Wf(m) && IsLoadByte(op)
    ensures CanExecuteIntendedCpu(m, op)
    ensures var d, s := Chip8Semantics.Decode(op), IntendedExecute(m, op, rnd);
      && AlterProperties.Quiet(s.out) && AlterProperties.OnlyRegisters(m, s.m)
      && s.m.registers[d.x] == d.kk
      && AlterProperties.OthersKept(m.registers, s.m.registers, d.x)
  {
  }

  /**
   * Corrected Fx29: I is 5 * Vx, so with the font loaded and Vx a hexadecimal digit, the five
   * bytes at I are the glyph of the digit Vx holds.
   */
  lemma IntendedFontAddress(m: AlterSemantics.Machine, op: bv16, rnd: byte)
    requires AlterSemantics.Wf(m) && IsFontAddress(op)
    ensures CanExecuteIntendedCpu(m, op)
    ensures var v, s := m.registers[Chip8Semantics.Decode(op).x] as int, IntendedExecute(m, op, rnd);
      && AlterProperties.Quiet(s.out) && s.m == m.(i := s.m.i)
      && s.m.i as int == 5 * v
      && (v < 16 && m.mem[..AlterSemantics.FONT_SIZE] == AlterDisplay.FONT ==>
            s.m.mem[s.m.i..s.m.i as int + 5] == AlterDisplay.FONT[5 * v..5 * v + 5])
  {
    var v := m.registers[Chip8Semantics.Decode(op).x] as int;
    if v < 16 && m.mem[..AlterSemantics.FONT_SIZE] == AlterDisplay.FONT {
      AlterProperties.GlyphAt(m.mem, v);
    }
  }

  /** Corrected Fx55: V0 .. Vx, Vx included, land at I, and the rest of memory is unchanged. */
  lemma IntendedStoreRegisters(m: AlterSemantics.Machine, op: bv16, rnd: byte)
    requires CanExecuteIntendedCpu(m, op) && IsBlockMove(op) && Chip8Semantics.Decode(op).kk == 0x55
    ensures var x, s, i := Chip8Semantics.Decode(op).x, IntendedExecute(m, op, rnd), m.i as int;
      && AlterProperties.Quiet(s.out) && s.m == m.(mem := s.m.mem)
      && s.m.mem[i..i + x + 1] == m.registers[..x + 1]
      && (forall k :: 0 <= k < AlterSemantics.MEM_SIZE && !(i <= k <= i + x) ==> s.m.mem[k] == m.mem[k])
  {
  }

  /** Corrected Fx65: V0 .. Vx, Vx included, are loaded from I; the registers above Vx are kept. */
  lemma IntendedLoadRegisters(m: AlterSemantics.Machine, op: bv16, rnd: byte)
    requires CanExecuteIntendedCpu(m, op) && IsBlockMove(op) && Chip8Semantics.Decode(op).kk == 0x65
    ensures var x, s, i := Chip8Semantics.Decode(op).x, IntendedExecute(m, op, rnd), m.i as int;
      && AlterProperties.Quiet(s.out) && AlterProperties.OnlyRegisters(m, s.m)
      && (forall k :: 0 <= k <= x ==> s.m.registers[k] == m.mem[i + k])
      && (forall k :: x < k < AlterSemantics.REGISTER_COUNT ==> s.m.registers[k] == m.registers[k])
  {
  }

  /** With the correction, Fx55 then Fx65 with the same x restore every register; only memory changes. */
  lemma IntendedStoreThenLoad(m: AlterSemantics.Machine, store: bv16, load: bv16, rnd: byte, rnd': byte)
    requires CanExecuteIntendedCpu(m, store) && IsBlockMove(store) && Chip8Semantics.Decode(store).kk == 0x55
    requires IsBlockMove(load) && Chip8Semantics.Decode(load).kk == 0x65
    requires Chip8Semantics.Decode(load).x == Chip8Semantics.Decode(store).x
    ensures CanExecuteIntendedCpu(IntendedExecute(m, store, rnd).m, load)
    ensures var s := IntendedExecute(IntendedExecute(m, store, rnd).m, load, rnd').m;
      s == m.(mem := s.mem)
  {
    IntendedStoreRegisters(m, store, rnd);
    var m1 := IntendedExecute(m, store, rnd).m;
    IntendedLoadRegisters(m1, load, rnd');
    var s := IntendedExecute(m1, load, rnd').m;
    assert s.registers == m.registers;
  }
}
