/** Configuration, event codes and handle types of the rotary-encoder driver
    (Core/Inc/rotary.h), and the layout of the packed state byte that the
    decoder stores in the handle (Core/Src/rotary.c).

    A packed state byte holds the sub-state in its low nibble (mask 0x0F) and
    the direction event in bits 4-5 (mask 0x30). */
module RotaryDefs {

  /** The C `uint8_t`. */
  type byte = bv8

  /** The two transition-table variants. In C the choice is the build macro
      `ROTARY_HALF_STEP`; here it is a value fixed when a handle is made. */
  datatype Mode = HalfStep | FullStep

  /** `ROTARY_HALF_STEP` is defined in the header as shipped. */
  const BuildMode: Mode := HalfStep

  /** The start sub-state, row 0 of either table. */
  const R_START: byte := 0x0

  /** Event codes returned by the decoder. */
  const DIR_NONE: byte := 0x00
  const DIR_CW: byte := 0x10
  const DIR_CCW: byte := 0x20

  /** Masks applied to the stored state byte. */
  const SUB_STATE_MASK: byte := 0x0F
  const EVENT_MASK: byte := 0x30

  /** One of the three codes a decode call may report. */
  predicate IsDirection(code: byte) {
    code == DIR_NONE || code == DIR_CW || code == DIR_CCW
  }

  /** The sub-state field of a packed byte, the row used for the next lookup:
      the byte's low four bits and nothing else. */
  function SubState(packed: byte): (sub: byte)
    ensures sub < 16
    ensures (packed ^ sub) & 0x0F == 0 && sub & 0xF0 == 0
  {
    packed & SUB_STATE_MASK
  }

  /** The event field of a packed byte, what a decode call returns: the
      byte's bits 4-5 and nothing else. */
  function EventBits(packed: byte): (code: byte)
    ensures code == 0x00 || code == 0x10 || code == 0x20 || code == 0x30
    ensures (packed ^ code) & 0x30 == 0 && code & 0xCF == 0
  {
    packed & EVENT_MASK
  }

  /** Builds a packed byte from a sub-state and an event code. */
  function Pack(sub: byte, code: byte): (packed: byte)
    requires sub < 16 && IsDirection(code)
    ensures SubState(packed) == sub && EventBits(packed) == code
    ensures packed & 0xC0 == 0
  {
    sub | code
  }

  /** A packed byte whose sub-state is a row of the table of `rows` rows, whose
      event field holds one of the three codes and whose two top bits are clear. */
  predicate IsPacked(packed: byte, rows: byte) {
    SubState(packed) < rows && IsDirection(EventBits(packed)) && packed & 0xC0 == 0
  }

  /** A well-formed byte is exactly its two fields put back together. */
  lemma UnpackPack(packed: byte, rows: byte)
    requires IsPacked(packed, rows)
    ensures packed == Pack(SubState(packed), EventBits(packed))
  {
  }

  /** The event codes are distinct, lie in bits 4-5 only and so never touch the
      sub-state nibble. */
  lemma EventCodesDisjoint()
    ensures DIR_NONE != DIR_CW && DIR_CW != DIR_CCW && DIR_NONE != DIR_CCW
    ensures forall code: byte :: IsDirection(code) ==> code & SUB_STATE_MASK == 0 && code & EVENT_MASK == code
  {
  }

  /** Two pin patterns that differ in exactly one phase: neighbours in the
      Gray cycle 00, 01, 11, 10. */
  predicate Adjacent(p: byte, q: byte) {
    p ^ q == 1 || p ^ q == 2
  }

  /** Identity of a pin-read callback (`Rotary_ReadPinFunc`). What the callback
      reads is outside the model: the decoder's operations take the sampled
      levels as parameters instead. */
  datatype ReadPinFunc = ReadPinFunc(address: nat)

  /** The opaque `void *` context handed to a callback; address 0 is NULL. */
  datatype UserData = UserData(address: nat)
}
