/** The full-step transition table of Core/Src/rotary.c (the branch taken when
    `ROTARY_HALF_STEP` is not defined). Rows are sub-states, columns the pin
    pattern `(B << 1) | A`; each entry is a packed byte. A direction event
    fires only when a whole Gray cycle has been seen and the pins return to 11. */
module FullStepTable {
  import opened RotaryDefs

  const R_CW_FINAL: byte := 0x1
  const R_CW_BEGIN: byte := 0x2
  const R_CW_NEXT: byte := 0x3
  const R_CCW_BEGIN: byte := 0x4
  const R_CCW_FINAL: byte := 0x5
  const R_CCW_NEXT: byte := 0x6

  /** Number of rows (sub-states). */
  const ROWS: byte := 7

  const StateTable: seq<seq<byte>> := [
    /* R_START     */ [R_START, R_CW_BEGIN, R_CCW_BEGIN, R_START],
    /* R_CW_FINAL  */ [R_CW_NEXT, R_START, R_CW_FINAL, R_START | DIR_CW],
    /* R_CW_BEGIN  */ [R_CW_NEXT, R_CW_BEGIN, R_START, R_START],
    /* R_CW_NEXT   */ [R_CW_NEXT, R_CW_BEGIN, R_CW_FINAL, R_START],
    /* R_CCW_BEGIN */ [R_CCW_NEXT, R_START, R_CCW_BEGIN, R_START],
    /* R_CCW_FINAL */ [R_CCW_NEXT, R_CCW_FINAL, R_START, R_START | DIR_CCW],
    /* R_CCW_NEXT  */ [R_CCW_NEXT, R_CCW_FINAL, R_CCW_BEGIN, R_START]
  ]

  /** The pin pattern with which each sub-state is entered along a clean
      rotation: R_START is entered at 11. */
  function EntryPattern(sub: byte): (p: byte)
    requires sub < ROWS
    ensures p < 4
  {
    if sub == R_START then 3
    else if sub == R_CW_FINAL then 2
    else if sub == R_CW_BEGIN then 1
    else if sub == R_CW_NEXT then 0
    else if sub == R_CCW_BEGIN then 2
    else if sub == R_CCW_FINAL then 1
    else 0
  }

  /** The sub-state an out-of-sequence pattern falls back to. */
  predicate IsReset(sub: byte) {
    sub == R_START
  }

  /** Every row has four columns and every entry is a well-formed packed byte
      whose sub-state is again a row of this table. */
  lemma TableWellFormed()
    ensures |StateTable| == ROWS as int
    ensures forall row :: 0 <= row < ROWS as int ==> |StateTable[row]| == 4
    ensures forall row, col :: 0 <= row < ROWS as int && 0 <= col < 4 ==>
              col < |StateTable[row]| && IsPacked(StateTable[row][col], ROWS)
  {
    forall row, col | 0 <= row < ROWS as int && 0 <= col < 4
      ensures col < |StateTable[row]| && IsPacked(StateTable[row][col], ROWS)
    {
      assert row in {0, 1, 2, 3, 4, 5, 6} && col in {0, 1, 2, 3};
    }
  }

  /** The entry at a row and column, as a packed byte. */
  function Entry(row: byte, col: byte): (packed: byte)
    requires row < ROWS && col < 4
    ensures IsPacked(packed, ROWS)
  {
    TableWellFormed();
    StateTable[row as int][col as int]
  }

  /** Clockwise fires exactly when R_CW_FINAL sees 11, counter-clockwise
      exactly when R_CCW_FINAL sees 11. */
  lemma EventCells(row: byte, col: byte)
    requires row < ROWS && col < 4
    ensures EventBits(Entry(row, col)) == DIR_CW <==> row == R_CW_FINAL && col == 3
    ensures EventBits(Entry(row, col)) == DIR_CCW <==> row == R_CCW_FINAL && col == 3
  {
    assert row in {0, 1, 2, 3, 4, 5, 6} && col in {0, 1, 2, 3};
  }
  /** A sample equal to the sub-state's entry pattern, or one phase away from
      it, leads to a sub-state whose entry pattern is that sample. */
  lemma Tracking(sub: byte, p: byte)
    requires sub < ROWS && p < 4
    requires p == EntryPattern(sub) || Adjacent(EntryPattern(sub), p)
    ensures EntryPattern(SubState(Entry(sub, p))) == p
  {
    assert sub in {0, 1, 2, 3, 4, 5, 6} && p in {0, 1, 2, 3};
  }

  /** A sample two phases away from the entry pattern leads, with no event,
      to a reset sub-state. */
  lemma IllegalJumpResets(sub: byte, p: byte)
    requires sub < ROWS && p < 4 && EntryPattern(sub) ^ p == 3
    ensures Entry(sub, p) < ROWS && IsReset(Entry(sub, p))
  {
    assert sub in {0, 1, 2, 3, 4, 5, 6} && p in {0, 1, 2, 3};
  }

  /** Looking up the same column twice reports nothing the second time, and
      a third lookup stays where the second one went. */
  lemma RepeatedColumn(sub: byte, p: byte)
    requires sub < ROWS && p < 4
    ensures var once := SubState(Entry(sub, p));
              var twice := Entry(once, p);
              EventBits(twice) == DIR_NONE && Entry(SubState(twice), p) == twice
  {
    assert sub in {0, 1, 2, 3, 4, 5, 6} && p in {0, 1, 2, 3};
  }

  /** One phase toggling away from the entry pattern and back: either the
      first edge reports nothing and the second returns to `sub`, or the
      first edge reports a step and the second lands, silently, in a plain
      sub-state with the same entry pattern whose next such edge is silent. */
  lemma Bounce(sub: byte, q: byte)
    requires sub < ROWS && q < 4 && Adjacent(EntryPattern(sub), q)
    ensures var mid := Entry(sub, q);
              var back := Entry(SubState(mid), EntryPattern(sub));
              if EventBits(mid) == DIR_NONE then back == sub
              else back < ROWS && EventBits(back) == DIR_NONE &&
                   EntryPattern(back) == EntryPattern(sub) &&
                   EventBits(Entry(SubState(back), q)) == DIR_NONE
  {
    assert sub in {0, 1, 2, 3, 4, 5, 6} && q in {0, 1, 2, 3};
  }

  /** The sub-states that report on their next sample are entered only with
      their own entry pattern: R_CW_FINAL on 10, R_CCW_FINAL on 01. */
  lemma ArmedEntry(sub: byte, p: byte)
    requires sub < ROWS && p < 4
    ensures var next := SubState(Entry(sub, p));
              (next == R_CW_FINAL ==> p == 2) && (next == R_CCW_FINAL ==> p == 1)
  {
    assert sub in {0, 1, 2, 3, 4, 5, 6} && p in {0, 1, 2, 3};
  }

  /** A step is reported only on the last two samples of a detent in its own
      direction: clockwise after 10 then 11, counter-clockwise after 01 then 11. */
  lemma ReportFollowsApproach(sub: byte, p: byte, q: byte)
    requires sub < ROWS && p < 4 && q < 4
    ensures var e := EventBits(Entry(SubState(Entry(sub, p)), q));
              (e == DIR_CW ==> p == 2 && q == 3) && (e == DIR_CCW ==> p == 1 && q == 3)
  {
    ArmedEntry(sub, p);
    EventCells(SubState(Entry(sub, p)), q);
  }

  /** The three patterns that lead up to a detent: 01, 00, 10 clockwise and
      10, 00, 01 counter-clockwise. */
  function Approach(code: byte): (ps: seq<byte>)
    requires code == DIR_CW || code == DIR_CCW
    ensures |ps| == 3
  {
    if code == DIR_CW then [1, 0, 2] else [2, 0, 1]
  }

  /** How many patterns of the approach in direction `code` a sub-state
      stands for: 1 for BEGIN, 2 for NEXT, 3 for FINAL, 0 otherwise. */
  function Progress(sub: byte, code: byte): (k: nat)
    requires code == DIR_CW || code == DIR_CCW
    ensures k <= 3
  {
    if code == DIR_CW then
      if sub == R_CW_BEGIN then 1 else if sub == R_CW_NEXT then 2 else if sub == R_CW_FINAL then 3 else 0
    else
      if sub == R_CCW_BEGIN then 1 else if sub == R_CCW_NEXT then 2 else if sub == R_CCW_FINAL then 3 else 0
  }

  /** One lookup advances the progress by at most one, and only on the next
      pattern of the approach; otherwise the progress stays or falls back. */
  lemma ProgressStep(sub: byte, p: byte, code: byte)
    requires sub < ROWS && p < 4 && (code == DIR_CW || code == DIR_CCW)
    ensures var k := Progress(sub, code);
              var next := Progress(SubState(Entry(sub, p)), code);
              next <= k || (next == k + 1 && p == Approach(code)[k])
  {
    assert sub in {0, 1, 2, 3, 4, 5, 6} && p in {0, 1, 2, 3};
  }

  /** A cell that reports a step leads back to R_START. */
  lemma ReportReturnsToStart(sub: byte, p: byte)
    requires sub < ROWS && p < 4
    ensures EventBits(Entry(sub, p)) != DIR_NONE ==> SubState(Entry(sub, p)) == R_START
  {
    assert sub in {0, 1, 2, 3, 4, 5, 6} && p in {0, 1, 2, 3};
  }
}
