/** The decoder engine of Core/Src/rotary.c: pin-pattern composition, one
    table lookup per call, and the encoder handle that keeps the packed state
    byte between calls. */
module RotaryDecoder {
  import opened RotaryDefs
  import HalfStepTable
  import FullStepTable

  /** Number of rows of the table a mode selects. */
  function Rows(mode: Mode): byte {
    match mode
    case HalfStep => HalfStepTable.ROWS
    case FullStep => FullStepTable.ROWS
  }

  /** A stored byte the decoder can step from: its low nibble names a row of
      the active table, whatever its event bits hold. */
  predicate IsRow(mode: Mode, state: byte) {
    SubState(state) < Rows(mode)
  }

  /** A sampled level as a bit: `read() ? 1 : 0`. */
  function PinLevel(level: bool): (bit: byte)
    ensures bit < 2 && (bit == 1 <==> level)
  {
    if level then 1 else 0
  }

  /** The 2-bit pin pattern, `(B << 1) | A`: bit 0 is phase A, bit 1 is phase B. */
  function PinState(a: bool, b: bool): (pinstate: byte)
    ensures pinstate < 4
    ensures (pinstate & 1 == 1) == a && (pinstate & 2 == 2) == b
    ensures pinstate as int == 2 * PinLevel(b) as int + PinLevel(a) as int
  {
    (PinLevel(b) << 1) | PinLevel(a)
  }

  /** Every value 0b00..0b11 is the pattern of exactly one pair of levels. */
  lemma PinStateBijective(p: byte, a: bool, b: bool)
    requires p < 4
    ensures PinState(a, b) == p <==> a == (p & 1 == 1) && b == (p & 2 == 2)
  {
  }

  /** One decode step: the entry of the active table at row `state & 0x0F`
      and column `pinstate`. The result is again a well-formed packed byte,
      so its low nibble is a valid row for the next call. */
  function Step(mode: Mode, state: byte, pinstate: byte): (next: byte)
    requires IsRow(mode, state) && pinstate < 4
    ensures IsPacked(next, Rows(mode))
    ensures IsRow(mode, next)
  {
    match mode
    case HalfStep => HalfStepTable.Entry(SubState(state), pinstate)
    case FullStep => FullStepTable.Entry(SubState(state), pinstate)
  }

  /** The pin pattern with which a sub-state is entered along a clean rotation. */
  function EntryPattern(mode: Mode, sub: byte): (p: byte)
    requires sub < Rows(mode)
    ensures p < 4
  {
    match mode
    case HalfStep => HalfStepTable.EntryPattern(sub)
    case FullStep => FullStepTable.EntryPattern(sub)
  }

  /** The sub-states an out-of-sequence pattern falls back to. */
  predicate IsReset(mode: Mode, sub: byte) {
    match mode
    case HalfStep => HalfStepTable.IsReset(sub)
    case FullStep => FullStepTable.IsReset(sub)
  }

  /** `Rotary_HandleTypeDef`: the bound pin readers and the packed state byte. */
  class Rotary {
    /** The table variant, fixed for the life of the handle. */
    const mode: Mode
    var readPinA: ReadPinFunc
    var userDataA: UserData
    var readPinB: ReadPinFunc
    var userDataB: UserData
    var state: byte

    /** The stored byte is a table entry (or R_START). */
    ghost predicate Valid()
      reads this
    {
      IsPacked(state, Rows(mode))
    }

    /** `Rotary_Init`: binds the two readers with their contexts and starts
        the state machine at R_START. */
    constructor Init(readPinA: ReadPinFunc, userDataA: UserData,
                     readPinB: ReadPinFunc, userDataB: UserData,
                     mode: Mode := BuildMode)
      ensures Valid()
      ensures this.mode == mode && state == R_START
      ensures this.readPinA == readPinA && this.userDataA == userDataA
      ensures this.readPinB == readPinB && this.userDataB == userDataB
    {
      this.mode := mode;
      this.readPinA := readPinA;
      this.userDataA := userDataA;
      this.readPinB := readPinB;
      this.userDataB := userDataB;
      state := R_START;
    }

    /** `Rotary_Process`, with `a` and `b` the levels the two readers return
        on this call. Stores the looked-up entry and returns its event bits,
        which are always NONE, CW or CCW. Only `state` changes. */
    method Process(a: bool, b: bool) returns (result: byte)
      requires IsRow(mode, state)
      modifies this`state
      ensures Valid()
      ensures state == Step(mode, old(state), PinState(a, b))
      ensures result == EventBits(state)
      ensures IsDirection(result)
    {
      var pinstate := (PinLevel(b) << 1) | PinLevel(a);
      state := Step(mode, state, pinstate);
      result := state & EVENT_MASK;
    }

    /** `Rotary_ReadPins`, with `a` and `b` the sampled levels: the same
        pattern `Process` would use, with no effect on the handle. */
    method ReadPins(a: bool, b: bool) returns (pinstate: byte)
      ensures pinstate == PinState(a, b)
      ensures pinstate < 4 && (pinstate & 1 == 1) == a && (pinstate & 2 == 2) == b
    {
      pinstate := (PinLevel(b) << 1) | PinLevel(a);
    }
  }

  /** Debug reads before a decode call do not change what that call does.
      The body reads twice; that any number of reads is harmless follows from
      `ReadPins` having no `modifies` clause, so it cannot change the handle. */
  method ReadThenProcess(r: Rotary, a: bool, b: bool) returns (pins: byte, result: byte)
    requires r.Valid()
    modifies r`state
    ensures pins == PinState(a, b)
    ensures r.state == Step(r.mode, old(r.state), pins)
    ensures result == EventBits(Step(r.mode, old(r.state), PinState(a, b)))
  {
    pins := r.ReadPins(a, b);
    pins := r.ReadPins(a, b);
    result := r.Process(a, b);
  }

  /** Each encoder has its own handle: decoding one leaves another handle's
      state and bindings as they were. */
  method ProcessOneOfTwo(r1: Rotary, r2: Rotary, a: bool, b: bool) returns (result: byte)
    requires r1 != r2 && r1.Valid() && r2.Valid()
    modifies r1`state
    ensures r1.Valid() && r2.Valid()
    ensures r1.state == Step(r1.mode, old(r1.state), PinState(a, b))
    ensures result == EventBits(r1.state)
    ensures r2.state == old(r2.state)
    ensures r2.readPinA == old(r2.readPinA) && r2.userDataA == old(r2.userDataA)
    ensures r2.readPinB == old(r2.readPinB) && r2.userDataB == old(r2.userDataB)
  {
    result := r1.Process(a, b);
  }
}
