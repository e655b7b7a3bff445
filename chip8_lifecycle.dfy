/**
 * The parts of the current processor around `execute`: the timer countdown in `tick`, the
 * beeper, key events, `reset`, `load` and the machine `new` builds.
 */
module Chip8Lifecycle {
  import opened Bits
  import opened Chip8Semantics

  /** A u8 counted down only while positive never falls below zero. */
  lemma CountDown(a: byte, b: byte)
    requires b == (if a > 0 then a - 1 else a)
    ensures b as int == (if a as int > 0 then a as int - 1 else 0)
  {
    Compare(a, 0);
    if a > 0 {
      SubWraps(a, 1);
    }
  }

  /** `tick` counts DT and ST down by one each unless they are zero; nothing else changes. */
  lemma TimersCountDown(m: Machine)
    requires Wf(m)
    ensures var r, dt, st := DecrementTimers(m), m.registers[DT] as int, m.registers[ST] as int;
      && r == m.(registers := r.registers)
      && r.registers[DT] as int == (if dt > 0 then dt - 1 else 0)
      && r.registers[ST] as int == (if st > 0 then st - 1 else 0)
      && r.registers[..DT] == m.registers[..DT]
  {
    var r := DecrementTimers(m).registers;
    CountDown(m.registers[DT], r[DT]);
    CountDown(m.registers[ST], r[ST]);
  }

  /** The countdown leaves memory and pc alone, so `tick` executes the word at the old pc. */
  lemma TickFetchesAtPc(m: Machine, rnd: byte)
    requires CanTick(m, rnd)
    ensures Fetch(DecrementTimers(m)) == Fetch(m)
    ensures Tick(m, rnd) == Exec(DecrementTimers(m), Fetch(m), rnd)
  {
  }

  /** The beeper sounds while ST is positive, so a sound timer of t lasts t more ticks. */
  lemma BeepCountsDown(m: Machine)
    requires Wf(m)
    ensures ShouldBeep(m) <==> m.registers[ST] as int > 0
    ensures ShouldBeep(DecrementTimers(m)) <==> m.registers[ST] as int > 1
  {
    Compare(m.registers[ST], 0);
    TimersCountDown(m);
    Compare(DecrementTimers(m).registers[ST], 0);
  }

  /** `key_press` marks its key down and makes it the current key; no other key changes. */
  lemma PressMarksKey(m: Machine, k: Key)
    requires Wf(m)
    ensures var r := KeyPress(m, k);
      && r.keys[KeyIndex(k)] && r.currentKey == Some(k)
      && (forall j :: 0 <= j < KEY_COUNT && j != KeyIndex(k) ==> r.keys[j] == m.keys[j])
      && r == m.(keys := r.keys, currentKey := r.currentKey)
  {
  }

  /**
   * `key_up` marks its key up and no other; the current key is cleared exactly when it was
   * the released key, and kept otherwise.
   */
  lemma UpClearsKey(m: Machine, k: Key)
    requires Wf(m)
    ensures var r := KeyUp(m, k);
      && !r.keys[KeyIndex(k)]
      && (forall j :: 0 <= j < KEY_COUNT && j != KeyIndex(k) ==> r.keys[j] == m.keys[j])
      && (r.currentKey.None? <==> m.currentKey.None? || m.currentKey == Some(k))
      && (r.currentKey.Some? ==> r.currentKey == m.currentKey)
      && r == m.(keys := r.keys, currentKey := r.currentKey)
  {
  }

  /**
   * Pressing and releasing a key leaves it up with no current key; releasing another key in
   * between keeps the pressed key current.
   */
  lemma PressThenUp(m: Machine, k: Key, other: Key)
    requires Wf(m) && other != k
    ensures KeyUp(KeyPress(m, k), k) == m.(keys := m.keys[KeyIndex(k) := false], currentKey := None)
    ensures KeyUp(KeyPress(m, k), other).currentKey == Some(k)
  {
    var pressed := KeyPress(m, k);
    assert pressed.keys[KeyIndex(k) := false] == m.keys[KeyIndex(k) := false];
  }

  /**
   * `reset` puts the machine back to what `new` builds, except for I, the keys and the
   * current key, which it does not touch.
   */
  lemma ResetIsInitial(m: Machine)
    requires Wf(m)
    ensures Reset(m) == Initial().(iReg := m.iReg, keys := m.keys, currentKey := m.currentKey)
  {
  }

  /** A second `reset` changes nothing. */
  lemma ResetIdempotent(m: Machine)
    requires Wf(m)
    ensures Reset(Reset(m)) == Reset(m)
  {
  }

  /** After `reset` memory holds the font at 0 .. 79 and zeros everywhere else; pc is 0x200. */
  lemma ResetMemory(m: Machine)
    requires Wf(m)
    ensures var r := Reset(m);
      && r.ram[..FONT_SIZE] == Chip8Display.FONT
      && (forall k :: FONT_SIZE <= k < RAM_SIZE ==> r.ram[k] == 0)
      && r.pc == PROGRAM_START && r.sp == 0
      && (forall k :: 0 <= k < REGISTER_SIZE ==> r.registers[k] == 0)
      && (forall k :: 0 <= k < STACK_SIZE ==> r.stack[k] == 0)
      && (forall p :: 0 <= p < Chip8Display.CELLS ==> !r.pixels[p])
  {
    var r := Reset(m);
    forall k | FONT_SIZE <= k < RAM_SIZE
      ensures r.ram[k] == 0
    {
      assert r.ram[k] == r.ram[FONT_SIZE..][k - FONT_SIZE];
    }
  }

  /**
   * `load`: everything `reset` leaves, with the data copied in order from 0x200 on; the rest
   * of memory is the font and zeros.
   */
  lemma LoadLayout(m: Machine, data: seq<byte>)
    requires Wf(m) && PROGRAM_START as int + |data| <= RAM_SIZE
    ensures var r, start := Load(m, data), PROGRAM_START as int;
      && r.ram[start..start + |data|] == data
      && r.ram[..FONT_SIZE] == Chip8Display.FONT
      && (forall k :: FONT_SIZE <= k < RAM_SIZE && !(start <= k < start + |data|) ==> r.ram[k] == 0)
      && r == Reset(m).(ram := r.ram)
  {
    var r := Load(m, data);
    var z := Reset(m);
    ResetMemory(m);
    assert r.ram[..FONT_SIZE] == z.ram[..FONT_SIZE];
    forall k | FONT_SIZE <= k < RAM_SIZE && !(PROGRAM_START as int <= k < PROGRAM_START as int + |data|)
      ensures r.ram[k] == 0
    {
      assert r.ram[k] == z.ram[k];
    }
  }

  /** What `new` builds is its own reset: a fresh machine is a reset one with I = 0 and no key. */
  lemma InitialIsReset()
    ensures Reset(Initial()) == Initial()
    ensures Initial().iReg == 0 && Initial().currentKey.None? && Initial().keys == AllOff(KEY_COUNT)
  {
  }
}
