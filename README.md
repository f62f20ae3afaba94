# Rotary-encoder quadrature decoder

A Dafny model of the table-driven rotary-encoder driver in `Core/Src/rotary.c` and
`Core/Inc/rotary.h`, a port of Ben Buxton's Rotary library. The model covers:

- the encoder handle (`Rotary_HandleTypeDef`): two pin-read callbacks with their
  contexts, plus one state byte;
- the two constant transition tables: half-step (6 × 4) and full-step (7 × 4);
- the three driver functions `Rotary_Init`, `Rotary_Process` and `Rotary_ReadPins`.

**The state byte.** It packs the current sub-state into its low nibble (mask `0x0F`).
Bits 4-5 (mask `0x30`) hold the direction event of the last decode call.

**One decode call.** It works in three steps:

1. Sample phases A and B, and form the pin pattern `(B << 1) | A`.
2. Store `table[state & 0x0F][pattern]` as the new state.
3. Return the new state's event bits: `ROTARY_DIR_NONE` (0x00), `ROTARY_DIR_CW` (0x10)
   or `ROTARY_DIR_CCW` (0x20).

**Files:**

- `rotary_defs.dfy` (module `RotaryDefs`): the byte type, the event codes and masks,
  the packed-byte layout, and the callback and context identities.
- `half_step_table.dfy`, `full_step_table.dfy` (modules `HalfStepTable`, `FullStepTable`):
  the two `state_table` variants with their state constants, and the facts about
  each table.
- `rotary_decoder.dfy` (module `RotaryDecoder`): the pin pattern, the single decode step
  `Step`, and the class `Rotary`.
  - The class has the handle's fields. `Init` plays the role of `Rotary_Init`;
    `Process` and `ReadPins` are its methods.
  - Two client methods: a debug read before a decode call, and two handles side
    by side.
- `rotary_traces.dfy` (module `RotaryTraces`): what the decoder does over a sequence of
  samples, one decode call per sample:
  - `Final`: the byte left in the handle;
  - `Events`: the codes returned.

  Over these, the module proves lemmas about clean rotations, contact bounce,
  illegal jumps, held pins and the half-step/full-step resolution.

**The build switch.** `ROTARY_HALF_STEP` chooses the table at build time. Here it is a
`Mode` value (`HalfStep` or `FullStep`) that is fixed when a handle is made. It
defaults to `BuildMode == HalfStep`, because the header as shipped defines the switch.

**The callbacks.** They are not modelled, because they are foreign code. `Process` and
`ReadPins` take the two levels the callbacks would return on that call. The handle
keeps the callbacks and their contexts only as identities.

**Entry patterns and rest positions.** Each sub-state has an entry pattern
(`EntryPattern`): the pin pattern with which a clean rotation enters it. For
example, the half-step R_CW_BEGIN is entered on 01. Only 00 and 11 are rest
positions of the Gray cycle.

**Where the code and its comments disagree, the model follows the code:**

- **CW direction.** The comment at `Core/Src/rotary.c:12-21` lists phase A, then
  phase B. Its clockwise cycle (line 20) is 00, 10, 11, 01.
  - Rewritten as `(B << 1) | A` patterns and started from rest 11, that cycle is
    10, 00, 01, 11. This is `CCW_TURN`, and the tables report it as
    counter-clockwise (`CommentClockwiseIsTableCounterClockwise`).
  - So what the comment calls clockwise, the tables call counter-clockwise.
  - The model follows the tables: `CW_TURN` is 01, 00, 10, 11, and `CCW_TURN` is its
    mirror.
- **When full-step fires.** The comments at `Core/Src/rotary.c:74` and `:89-91` say
  full-step fires at 00. The table fires on column 11 (`Core/Src/rotary.c:96`,
  `:100`; `FullStepTable.EventCells`).
  - The path example at `:89-91` does not match the table either way.
    - Read in the column order `(B << 1) | A` that the table's doc states at
      `:86-87`, it matches only with every level inverted: 10 in the comment
      for column 01, 11 for 00, and so on.
    - Read in (A, B) order, BEGIN(10) and FINAL(01) match columns 01 and 10,
      but the two rest positions 00 and 11 are swapped.

- **Half-step state comments.** The comments on the constants at
  `Core/Src/rotary.c:50-54` put R_START_M at the 11 position, say that R_CCW_BEGIN
  and R_CW_BEGIN are entered from 00, and say that R_CW_BEGIN_M and R_CCW_BEGIN_M
  are entered from 11. The table at `:64-69` has every one of those levels
  inverted.
  - R_START_M is entered and held on column 00.
  - The two BEGIN states are entered from R_START, whose rest pattern is 11.
  - The two `_M` states are entered from R_START_M, whose rest pattern is 00.
  - The model follows the table (`HalfStepTable.EntryPattern`, `HalfStepTable.Tracking`).

**Behaviour worth knowing:**

- **The byte after a step.** The byte stored by the call that reports keeps the
  event bits beside the rest sub-state it reached. The next call masks those bits
  off (`RunIgnoresEventBits`).
  - In full-step mode, and in half-step mode on a report at 11, that byte is
    `R_START | ROTARY_DIR_CW` (or `| ROTARY_DIR_CCW`), as `Core/Src/rotary.c:91` shows
    (`FullStepAfterReport`, `HalfStepAfterReport`).
  - In half-step mode, a report at 00 leaves `R_START_M | ROTARY_DIR_CW` (or
    `| ROTARY_DIR_CCW`), from R_CW_BEGIN or R_CCW_BEGIN (`Core/Src/rotary.c:65-66`;
    `HalfStepTable.ReportLandsAtRest`, `HalfStepAfterReport`).
- **A repeated sample.** It always returns NONE. The sub-state can still move on the
  second identical sample: after an illegal jump, the machine is at a reset
  sub-state, and the same pattern then starts a new step (`SecondSampleCanMove`).
  The state is fixed only from the second identical sample on
  (`RepeatedSampleIsQuiet`, `HoldSettles`).
- **A report needs a detent.** A report is never the first call from R_START. The
  call that reports and the call before it saw the last two samples of a detent
  in the reported direction (`ReportEndsOwnDetent`).
- **In full-step mode, each report has its own detent.** The samples before a
  report contain that detent's first three patterns, in order
  (`FullStepReportNeedsDetent`). For every report after the first, they lie
  strictly after the previous report, so two reports never share one detent
  (`FullStepEachReportNeedsOwnDetent`).

## Model

| member | source | states |
|---|---|---|
| RotaryDefs.Pack | Core/Src/rotary.c:60 | A sub-state below 16 and one of the three event codes pack into a byte whose `& 0x0F` is the sub-state, whose `& 0x30` is the code and whose two top bits are clear |
| RotaryDefs.SubState | Core/Src/rotary.c:151 | `& 0x0F` yields a value below 16 that agrees with the byte on its low four bits and has no other bit set |
| RotaryDefs.EventBits | Core/Src/rotary.c:159 | `& 0x30` yields 0x00, 0x10, 0x20 or 0x30, agreeing with the byte on bits 4-5 and with no other bit set |
| RotaryDefs.UnpackPack | Core/Src/rotary.c:150-159 | Every well-formed stored byte is exactly its low-nibble sub-state OR-ed with its event bits, so the two masks lose nothing |
| RotaryDefs.EventCodesDisjoint | Core/Inc/rotary.h:50-62 | NONE, CW and CCW are pairwise distinct, `& 0x0F` of each is 0 and `& 0x30` of each is itself: the codes never touch the sub-state field |
| HalfStepTable.TableWellFormed | Core/Src/rotary.c:62-70 | The half-step table has 6 rows of 4 entries; every entry's low nibble is below 6 and its event bits are NONE, CW or CCW |
| HalfStepTable.Entry | Core/Src/rotary.c:62-70 | Any in-range lookup yields a well-formed packed byte whose low nibble is again a row of the table |
| HalfStepTable.EventCells | Core/Src/rotary.c:64-69 | CW is reported exactly from R_CW_BEGIN on 00 and from R_CW_BEGIN_M on 11; CCW exactly from R_CCW_BEGIN on 00 and from R_CCW_BEGIN_M on 11 (both directions of each equivalence) |
| HalfStepTable.Tracking | Core/Src/rotary.c:64-69 | A sample equal to the sub-state's entry pattern or one phase away from it leads to a sub-state whose entry pattern is that sample |
| HalfStepTable.IllegalJumpResets | Core/Src/rotary.c:26 | A sample with both phases changed leads, with no event, to R_START or R_START_M |
| HalfStepTable.RepeatedColumn | Core/Src/rotary.c:64-69 | Looking up the same column twice gives no event the second time, and a third lookup stays where the second went |
| HalfStepTable.Bounce | Core/Src/rotary.c:29 | One phase toggling away from the entry pattern and back either returns to the same sub-state with no event, or, if the first edge reported a step, lands silently in a plain sub-state with the same entry pattern from which the same edge reports nothing |
| HalfStepTable.ArmedEntry | Core/Src/rotary.c:64-69 | The four sub-states that can report on their next sample are entered only on their own entry pattern: R_CW_BEGIN and R_CCW_BEGIN_M on 01, R_CCW_BEGIN and R_CW_BEGIN_M on 10 |
| HalfStepTable.ReportFollowsApproach | Core/Src/rotary.c:64-69 | Two lookups end in a CW report only on the samples 01 then 00 or 10 then 11, and in a CCW report only on 10 then 00 or 01 then 11 |
| FullStepTable.TableWellFormed | Core/Src/rotary.c:93-102 | The full-step table has 7 rows of 4 entries; every entry's low nibble is below 7 and its event bits are NONE, CW or CCW |
| FullStepTable.Entry | Core/Src/rotary.c:93-102 | Any in-range lookup yields a well-formed packed byte whose low nibble is again a row of the table |
| FullStepTable.EventCells | Core/Src/rotary.c:95-101 | CW is reported exactly from R_CW_FINAL on 11 and CCW exactly from R_CCW_FINAL on 11 (both directions) |
| FullStepTable.Tracking | Core/Src/rotary.c:95-101 | A sample equal to the sub-state's entry pattern or one phase away from it leads to a sub-state whose entry pattern is that sample |
| FullStepTable.IllegalJumpResets | Core/Src/rotary.c:26 | A sample with both phases changed leads to R_START with no event |
| FullStepTable.RepeatedColumn | Core/Src/rotary.c:95-101 | Looking up the same column twice gives no event the second time, and a third lookup stays where the second went |
| FullStepTable.Bounce | Core/Src/rotary.c:29 | Same bounce property as in half-step mode, for the full-step table |
| FullStepTable.ArmedEntry | Core/Src/rotary.c:95-101 | R_CW_FINAL is entered only on 10 and R_CCW_FINAL only on 01 |
| FullStepTable.ReportFollowsApproach | Core/Src/rotary.c:95-101 | Two lookups end in a CW report only on 10 then 11, and in a CCW report only on 01 then 11 |
| FullStepTable.ProgressStep | Core/Src/rotary.c:95-101 | One lookup advances a sub-state's progress along a detent (BEGIN 1, NEXT 2, FINAL 3) by at most one, and only on the next pattern of that detent (01, 00, 10 clockwise; 10, 00, 01 counter-clockwise); otherwise the progress stays or falls back |
| RotaryDecoder.PinState | Core/Src/rotary.c:139-145 | The pattern is below 4, its bit 0 is phase A and its bit 1 phase B, and it equals 2·B + A |
| RotaryDecoder.PinLevel | Core/Src/rotary.c:139-140 | A sampled level becomes a bit below 2 that is 1 exactly when the level is high (`? 1 : 0`) |
| RotaryDecoder.PinStateBijective | Core/Inc/rotary.h:197-202 | Each of 0b00, 0b01, 0b10, 0b11 is the pattern of exactly one pair of levels (A = bit 0, B = bit 1) |
| RotaryDecoder.Step | Core/Src/rotary.c:151 | From any byte whose low nibble is a row, whatever its event bits, the lookup yields a well-formed packed byte whose low nibble is again a valid row index |
| RotaryDecoder.Rotary.Init | Core/Src/rotary.c:119-130 | After initialisation the state is R_START and the four bindings equal the arguments; the mode is the one chosen |
| RotaryDecoder.Rotary.Process | Core/Src/rotary.c:137-160 | Only `state` changes; it becomes the table entry at row `old state & 0x0F`, column `(B << 1) \| A`; the result is that entry's `& 0x30` and is always NONE, CW or CCW |
| RotaryDecoder.Rotary.ReadPins | Core/Src/rotary.c:167-172 | Returns the same pattern `Process` would use (bit 1 = B, bit 0 = A), and changes nothing |
| RotaryDecoder.ReadThenProcess | Core/Inc/rotary.h:195-206 | Debug reads before a decode call leave that call's new state and result as they would have been without them |
| RotaryDecoder.ProcessOneOfTwo | Core/Inc/rotary.h:75-86 | Decoding one handle steps that handle's state by the table as `Process` does and leaves another handle's state and all four bindings unchanged |
| RotaryTraces.Final | Core/Src/rotary.c:151 | After any number of decode calls the stored byte's low nibble is still a valid row, and after at least one call it is a well-formed table entry |
| RotaryTraces.Events | Core/Src/rotary.c:159 | Exactly one returned code per decode call; `EventAt` states which code each one is |
| RotaryTraces.EventAt | Core/Src/rotary.c:151-159 | The code the i-th call returns is the event bits of one table step from the state the first i calls left, on the i-th sample |
| RotaryTraces.EventsAreDirections | Core/Inc/rotary.h:139-142 | Every code a sequence of decode calls returns is NONE, CW or CCW |
| RotaryTraces.FinalAppend | Core/Src/rotary.c:151 | Feeding two sample sequences one after the other leaves the same byte as feeding their concatenation |
| RotaryTraces.EventsAppend | Core/Src/rotary.c:159 | The codes for a concatenation are the codes of the first part followed by those of the second, continued from where the first left the state |
| RotaryTraces.RunIgnoresEventBits | Core/Src/rotary.c:150-151 | Two stored bytes with the same low nibble produce the same future states and the same codes |
| RotaryTraces.EventsOnlyAtRest | Core/Src/rotary.c:62-102 | A decode call reports an event only on pattern 00 or 11 in half-step mode, and only on 11 in full-step mode |
| RotaryTraces.Tracking | Core/Src/rotary.c:23-26 | In either mode and from any stored byte (event bits or not), a sample equal or adjacent to the entry pattern of its sub-state moves to a sub-state whose entry pattern is that sample |
| RotaryTraces.IllegalJumpResets | Core/Src/rotary.c:26 | In either mode and from any stored byte, a sample that changes both phases at once resets the machine and reports no event |
| RotaryTraces.RepeatedSampleIsQuiet | Core/Src/rotary.c:62-102 | In either mode and from any state, a second call with the same pattern returns NONE, and a third leaves the state as the second did |
| RotaryTraces.SecondSampleCanMove | Core/Src/rotary.c:64-65 | Half-step: 01 in R_CCW_BEGIN goes to R_START, and a second 01 moves on to R_CW_BEGIN |
| RotaryTraces.Bounce | Core/Src/rotary.c:29 | In either mode, one phase toggling away from the entry pattern and back returns to the same sub-state silently, or, after an edge that reported a step, lands silently in a sub-state with the same entry pattern from which the same edge reports nothing |
| RotaryTraces.ReportFollowsApproach | Core/Src/rotary.c:25 | In either mode, from any state, the second of two calls reports CW or CCW only on the last two samples of a detent in that direction (half-step: 01,00 or 10,11 for CW and 10,00 or 01,11 for CCW; full-step: 10,11 for CW and 01,11 for CCW) |
| RotaryTraces.HoldAtFixpoint | Core/Src/rotary.c:151 | From a state that one more sample of `p` leaves unchanged, any number of samples of `p` leaves it unchanged and returns its event bits each time |
| RotaryTraces.HoldSettles | Core/Src/rotary.c:62-102 | Pins held at one pattern for n ≥ 2 calls end in the state the second call produced |
| RotaryTraces.HoldQuiet | Core/Src/rotary.c:62-102 | Pins held at one pattern report, at most, the first call's event; every later call returns NONE |
| RotaryTraces.QuietChatter | Core/Src/rotary.c:29 | From a sub-state whose bounce edge is silent, any number of single-phase bounces reports nothing and ends in that sub-state |
| RotaryTraces.ChatterEmitsAtMostOnce | Core/Src/rotary.c:29 | However long one phase chatters around the entry pattern of its sub-state, only the first call can report an event (the one the first edge gives); all later calls return NONE |
| RotaryTraces.CleanTurn | Core/Src/rotary.c:62-102 | From R_START, one clean detent: 01,00,10,11 reports [NONE, CW, NONE, CW] in half-step and [NONE, NONE, NONE, CW] in full-step, and leaves R_START \| CW; 10,00,01,11 is the mirror with CCW |
| RotaryTraces.CleanTurnFrom | Core/Src/rotary.c:150-151 | The same detent from any byte whose sub-state is R_START, whatever its event bits |
| RotaryTraces.CleanTurnsEnd | Core/Src/rotary.c:62-102 | After n clean detents in one direction the sub-state is R_START again |
| RotaryTraces.CleanTurns | Core/Src/rotary.c:62-102 | n clean detents in one direction report one detent's codes n times, in order |
| RotaryTraces.TurnCount | Core/Inc/rotary.h:53-61 | n clean detents report exactly 2n (half-step) or n (full-step) steps in their own direction and none in the other |
| RotaryTraces.HalfStepDoublesResolution | Core/Inc/rotary.h:36-41 | For the same clean rotation, half-step mode reports exactly twice as many steps as full-step mode |
| RotaryTraces.CommentClockwiseIsTableCounterClockwise | Core/Src/rotary.c:20 | The comment's clockwise cycle, packed as `(B << 1) \| A` and started from 11, is `CCW_TURN`, and both tables report it as counter-clockwise |
| RotaryTraces.ReportEndsOwnDetent | Core/Src/rotary.c:25 | From R_START, a call that reports a step is never the first call, and it and the call before it saw the last two samples of a detent in the reported direction |
| RotaryTraces.FullStepApproachSeen | Core/Src/rotary.c:95-101 | Full-step, from any byte whose sub-state is R_START: after any samples, the samples contain, in order, as many patterns of the detent's approach as the current sub-state's progress says |
| RotaryTraces.FullStepReportNeedsDetent | Core/Src/rotary.c:25 | Full-step, from any byte whose sub-state is R_START: a call that reports a step sees 11, the report is CW or CCW, and the earlier samples contain, in order, 01, 00, 10 for CW or 10, 00, 01 for CCW |
| FullStepTable.ReportReturnsToStart | Core/Src/rotary.c:96-100 | Every full-step cell that reports a step leads to sub-state R_START |
| HalfStepTable.ReportLandsAtRest | Core/Src/rotary.c:65-69 | Every half-step cell that reports a step is in column 00 or 11; a report on 00 leads to sub-state R_START_M and a report on 11 to R_START |
| RotaryTraces.HalfStepAfterReport | Core/Src/rotary.c:65-69 | From any valid byte, the half-step call that reports saw 00 or 11, and leaves sub-state R_START_M after 00 and R_START after 11 |
| RotaryTraces.FullStepAfterReport | Core/Src/rotary.c:96-100 | Full-step: the call that reports a step leaves a byte whose sub-state is R_START |
| RotaryTraces.EventsFrom | Core/Src/rotary.c:151-159 | The codes from call m on are those of a run started from the byte the first m calls left |
| RotaryTraces.FullStepEachReportNeedsOwnDetent | Core/Src/rotary.c:25 | Full-step from R_START: for reports at calls i < j, the samples strictly between them contain, in order, 01, 00, 10 if j reports CW, or 10, 00, 01 if it reports CCW; two reports never share one detent |
| RotaryTraces.FullStepBounceExample | Core/Src/rotary.c:95-101 | Full-step: 01,11,01,00,10,11 from R_START reports exactly one CW, on the last call, and leaves R_START \| CW |
| RotaryTraces.OutOfSequenceExamples | Core/Src/rotary.c:62-102 | 10 in full-step R_CW_BEGIN goes to R_START with no event; 11 in R_START stays at R_START with no event in both modes |
| RotaryTraces.ProcessTwice | Core/Src/rotary.c:137-160 | Two `Process` calls on one handle with unchanged levels: the second returns NONE, and the state it leaves is a fixpoint for those levels |

## Left out

- `Core/Src/main.c`: the whole file is not part of this model. That covers:
  - HAL and clock setup, and GPIO/NVIC configuration;
  - USB, UART and RTT output;
  - the timer and interrupt callbacks with their tick-based debounce;
  - the `volatile` globals shared with interrupt handlers;
  - the counter that adds one for CW and subtracts one for CCW.

  These are hardware I/O and concurrency.
- The pin-read callbacks and their `void *` contexts (`Core/Inc/rotary.h:72`). They
  are foreign calls. `ReadPinFunc` and `UserData` keep only an identity, and every
  operation takes the two sampled levels as parameters. A callback that returns
  different levels to `ReadPins` and `Process` is outside the model.
- The preprocessor mechanics of `ROTARY_HALF_STEP`. The switch is the `Mode` value
  fixed at construction. Both tables and both constant sets are present at once, in
  separate modules.
- The usage examples in the header comments (`Core/Inc/rotary.h:102-191`): bare-metal
  loop, FreeRTOS task, timer and GPIO interrupt. They are illustrative platform code.
- Polling cadence and timing (`Core/Inc/rotary.h:144-146`). The table needs no delay,
  so no operation takes a time parameter.
- RotaryDecoder.Rotary.Process: requires the stored byte's low nibble to be a row of
  the active table.
  - Every byte that `Init` and `Process` store meets this (`Valid`).
  - A byte that did not meet it would make the C lookup read outside `state_table`,
    which the model does not describe.
- RotaryTraces.Final, RotaryTraces.Events: one sample per decode call. What happens
  between calls, such as how long each pattern is held, is not modelled.
