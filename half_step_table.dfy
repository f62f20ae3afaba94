/** The half-step transition table of Core/Src/rotary.c (the branch taken when
    `ROTARY_HALF_STEP` is defined). Rows are sub-states, columns the pin
    pattern `(B << 1) | A`; each entry is a packed byte. A direction event
    fires at both rest positions of the Gray cycle, 00 and 11. */
module HalfStepTable {
  import opened RotaryDefs

  const R_CCW_BEGIN: byte := 0x1
  const R_CW_BEGIN: byte := 0x2
  const R_START_M: byte := 0x3
  const R_CW_BEGIN_M: byte := 0x4
  const R_CCW_BEGIN_M: byte := 0x5

  /** Number of rows (sub-states). */
  const ROWS: byte := 6

  const StateTable: seq<seq<byte>> := [
    /* R_START       */ [R_START_M, R_CW_BEGIN, R_CCW_BEGIN, R_START],
    /* R_CCW_BEGIN   */ [R_START_M | DIR_CCW, R_START, R_CCW_BEGIN, R_START],
    /* R_CW_BEGIN    */ [R_START_M | DIR_CW, R_CW_BEGIN, R_START, R_START],
    /* R_START_M     */ [R_START_M, R_CCW_BEGIN_M, R_CW_BEGIN_M, R_START],
    /* R_CW_BEGIN_M  */ [R_START_M, R_START_M, R_CW_BEGIN_M, R_START | DIR_CW],
    /* R_CCW_BEGIN_M */ [R_START_M, R_CCW_BEGIN_M, R_START_M, R_START | DIR_CCW]
  ]

  /** The pin pattern with which each sub-state is entered along a clean
      rotation: R_START is entered at 11 and R_START_M at 00. The constant
      comments place R_START_M at 11 and the BEGIN states after 00; the
      table has every one of those levels inverted. */
  function EntryPattern(sub: byte): (p: byte)
    requires sub < ROWS
    ensures p < 4
  {
    if sub == R_START then 3
    else if sub == R_CCW_BEGIN then 2
    else if sub == R_CW_BEGIN then 1
    else if sub == R_START_M then 0
    else if sub == R_CW_BEGIN_M then 2
    else 1
  }

  /** The two sub-states an out-of-sequence pattern falls back to. */
  predicate IsReset(sub: byte) {
    sub == R_START || sub == R_START_M
  }

  /** Every row has four columns and every entry is a well-formed packed byte
      whose sub-state is again a row of this table. */
  lemma TableWellFormed()
    ensures |StateTable| == ROWS as int
    ensures forall row :: 0 <= row < ROWS as int ==> |StateTable[row]| == 4
    ensures forall row, col :: 0 <= row < ROWS as int && 0 <= col < 4 ==>
              col < |StateTable[row]| && IsPacked(StateTable[row][col], ROWS)
  {
    forall row, col | 0 <= row < ROWS as int && 0 <= col < 4
      ensures col < |StateTable[row]| && IsPacked(StateTable[row][col], ROWS)
    {
      assert row in {0, 1, 2, 3, 4, 5} && col in {0, 1, 2, 3};
    }
  }

  /** The entry at a row and column, as a packed byte. */
  function Entry(row: byte, col: byte): (packed: byte)
    requires row < ROWS && col < 4
    ensures IsPacked(packed, ROWS)
  {
    TableWellFormed();
    StateTable[row as int][col as int]
  }

  /** Clockwise fires exactly when R_CW_BEGIN sees 00 or R_CW_BEGIN_M sees 11,
      counter-clockwise exactly when R_CCW_BEGIN sees 00 or R_CCW_BEGIN_M sees 11. */
  lemma EventCells(row: byte, col: byte)
    requires row < ROWS && col < 4
    ensures EventBits(Entry(row, col)) == DIR_CW <==>
              (row == R_CW_BEGIN && col == 0) || (row == R_CW_BEGIN_M && col == 3)
    ensures EventBits(Entry(row, col)) == DIR_CCW <==>
              (row == R_CCW_BEGIN && col == 0) || (row == R_CCW_BEGIN_M && col == 3)
  {
    assert row in {0, 1, 2, 3, 4, 5} && col in {0, 1, 2, 3};
  }
  /** A sample equal to the sub-state's entry pattern, or one phase away from
      it, leads to a sub-state whose entry pattern is that sample. */
  lemma Tracking(sub: byte, p: byte)
    requires sub < ROWS && p < 4
    requires p == EntryPattern(sub) || Adjacent(EntryPattern(sub), p)
    ensures EntryPattern(SubState(Entry(sub, p))) == p
  {
    assert sub in {0, 1, 2, 3, 4, 5} && p in {0, 1, 2, 3};
  }

  /** A sample two phases away from the entry pattern leads, with no event,
      to a reset sub-state. */
  lemma IllegalJumpResets(sub: byte, p: byte)
    requires sub < ROWS && p < 4 && EntryPattern(sub) ^ p == 3
    ensures Entry(sub, p) < ROWS && IsReset(Entry(sub, p))
  {
    assert sub in {0, 1, 2, 3, 4, 5} && p in {0, 1, 2, 3};
  }

  /** Looking up the same column twice reports nothing the second time, and
      a third lookup stays where the second one went. */
  lemma RepeatedColumn(sub: byte, p: byte)
    requires sub < ROWS && p < 4
    ensures var once := SubState(Entry(sub, p));
              var twice := Entry(once, p);
              EventBits(twice) == DIR_NONE && Entry(SubState(twice), p) == twice
  {
    assert sub in {0, 1, 2, 3, 4, 5} && p in {0, 1, 2, 3};
  }

  /** One phase toggling away from the entry pattern and back: either the
      first edge reports nothing and the second returns to `sub`, or the
      first edge reports a step and the second lands, silently, in a plain
      sub-state with the same entry pattern whose next such edge is silent. */
  lemma Bounce(sub: byte, q: byte)
    requires sub < ROWS && q < 4 && Adjacent(EntryPattern(sub), q)
    ensures var mid := Entry(sub, q);
              var back := Entry(SubState(mid), EntryPattern(sub));
              if EventBits(mid) == DIR_NONE then back == sub
              else back < ROWS && EventBits(back) == DIR_NONE &&
                   EntryPattern(back) == EntryPattern(sub) &&
                   EventBits(Entry(SubState(back), q)) == DIR_NONE
  {
    assert sub in {0, 1, 2, 3, 4, 5} && q in {0, 1, 2, 3};
  }

  /** The sub-states that report on their next sample are entered only with
      their own entry pattern: R_CW_BEGIN and R_CCW_BEGIN_M on 01, R_CCW_BEGIN
      and R_CW_BEGIN_M on 10. */
  lemma ArmedEntry(sub: byte, p: byte)
    requires sub < ROWS && p < 4
    ensures var next := SubState(Entry(sub, p));
              ((next == R_CW_BEGIN || next == R_CCW_BEGIN_M) ==> p == 1) &&
              ((next == R_CCW_BEGIN || next == R_CW_BEGIN_M) ==> p == 2)
  {
    assert sub in {0, 1, 2, 3, 4, 5} && p in {0, 1, 2, 3};
  }

  /** A step is reported only on the last two samples of a half detent in its
      own direction: clockwise after 01 then 00 or after 10 then 11,
      counter-clockwise after 10 then 00 or after 01 then 11. */
  lemma ReportFollowsApproach(sub: byte, p: byte, q: byte)
    requires sub < ROWS && p < 4 && q < 4
    ensures var e := EventBits(Entry(SubState(Entry(sub, p)), q));
              (e == DIR_CW ==> (p == 1 && q == 0) || (p == 2 && q == 3)) &&
              (e == DIR_CCW ==> (p == 2 && q == 0) || (p == 1 && q == 3))
  {
    ArmedEntry(sub, p);
    EventCells(SubState(Entry(sub, p)), q);
  }

  /** A cell that reports a step leads to the rest it reports on: a report
      on 00 leaves R_START_M, a report on 11 leaves R_START. */
  lemma ReportLandsAtRest(sub: byte, p: byte)
    requires sub < ROWS && p < 4
    ensures EventBits(Entry(sub, p)) != DIR_NONE ==> p == 0 || p == 3
    ensures EventBits(Entry(sub, p)) != DIR_NONE && p == 0 ==> SubState(Entry(sub, p)) == R_START_M
    ensures EventBits(Entry(sub, p)) != DIR_NONE && p == 3 ==> SubState(Entry(sub, p)) == R_START
  {
    assert sub in {0, 1, 2, 3, 4, 5} && p in {0, 1, 2, 3};
  }
}
