/** What the decoder does over a sequence of samples: clean rotations,
    contact bounce, illegal jumps and repeated samples. One pattern is fed
    per decode call, as a caller polling `Rotary_Process` would; `Final`
    is the state byte left in the handle and `Events` the codes returned. */
module RotaryTraces {
  import opened RotaryDefs
  import opened RotaryDecoder
  import HalfStepTable
  import FullStepTable

  /** A 2-bit pin pattern `(B << 1) | A`. */
  type Pattern = p: byte | p < 4

  /** The state byte after one decode call per pattern, starting from `state`. */
  function Final(mode: Mode, state: byte, ps: seq<Pattern>): (last: byte)
    requires IsRow(mode, state)
    ensures IsRow(mode, last)
    ensures ps != [] ==> IsPacked(last, Rows(mode))
    decreases |ps|
  {
    if ps == [] then state else Final(mode, Step(mode, state, ps[0]), ps[1..])
  }

  /** The codes returned by one decode call per pattern, starting from `state`. */
  function Events(mode: Mode, state: byte, ps: seq<Pattern>): (es: seq<byte>)
    requires IsRow(mode, state)
    ensures |es| == |ps|
    decreases |ps|
  {
    if ps == [] then []
    else [EventBits(Step(mode, state, ps[0]))] + Events(mode, Step(mode, state, ps[0]), ps[1..])
  }

  /** Every code a run returns is NONE, CW or CCW. */
  lemma {:induction false} EventsAreDirections(mode: Mode, state: byte, ps: seq<Pattern>)
    requires IsRow(mode, state)
    ensures forall i :: 0 <= i < |ps| ==> IsDirection(Events(mode, state, ps)[i])
    decreases |ps|
  {
    if ps != [] {
      EventsAreDirections(mode, Step(mode, state, ps[0]), ps[1..]);
    }
  }

  /** `n` copies of `ps`, one after another. */
  function Repeat<T>(ps: seq<T>, n: nat): seq<T> {
    if n == 0 then [] else ps + Repeat(ps, n - 1)
  }

  /** `Repeat` has `n` times the length of `ps`, and only elements of `ps`. */
  lemma {:induction false} RepeatElements<T>(ps: seq<T>, n: nat)
    ensures |Repeat(ps, n)| == n * |ps|
    ensures forall i :: 0 <= i < |Repeat(ps, n)| ==> Repeat(ps, n)[i] in ps
  {
    if n > 0 {
      RepeatElements(ps, n - 1);
      var r, rest := Repeat(ps, n), Repeat(ps, n - 1);
      assert r == ps + rest;
      forall i | 0 <= i < |r| ensures r[i] in ps {
        if i >= |ps| { assert r[i] == rest[i - |ps|]; }
      }
    }
  }

  /** How many of `events` equal `code`. */
  function Count(events: seq<byte>, code: byte): (k: nat)
    ensures k <= |events|
  {
    if events == [] then 0
    else (if events[0] == code then 1 else 0) + Count(events[1..], code)
  }

  /** Counting distributes over concatenation. */
  lemma {:induction false} CountAppend(xs: seq<byte>, ys: seq<byte>, code: byte)
    ensures Count(xs + ys, code) == Count(xs, code) + Count(ys, code)
    decreases |xs|
  {
    if xs != [] {
      assert (xs + ys)[0] == xs[0];
      assert (xs + ys)[1..] == xs[1..] + ys;
      CountAppend(xs[1..], ys, code);
    } else {
      assert xs + ys == ys;
    }
  }

  /** Counting in a four-element sequence, one element at a time. */
  lemma {:induction false} CountFour(a: byte, b: byte, c: byte, d: byte, code: byte)
    ensures Count([a, b, c, d], code) ==
              (if a == code then 1 else 0) + (if b == code then 1 else 0) +
              (if c == code then 1 else 0) + (if d == code then 1 else 0)
  {
    assert [d][1..] == [];
    assert Count([d], code) == (if d == code then 1 else 0);
    assert [c, d][1..] == [d];
    assert Count([c, d], code) == (if c == code then 1 else 0) + Count([d], code);
    assert [b, c, d][1..] == [c, d];
    assert Count([b, c, d], code) == (if b == code then 1 else 0) + Count([c, d], code);
    assert [a, b, c, d][1..] == [b, c, d];
  }

  /** `n` copies contain `n` times as many occurrences. */
  lemma {:induction false} CountRepeat(es: seq<byte>, n: nat, code: byte)
    ensures Count(Repeat(es, n), code) == n * Count(es, code)
  {
    if n > 0 {
      CountAppend(es, Repeat(es, n - 1), code);
      CountRepeat(es, n - 1, code);
      assert n * Count(es, code) == Count(es, code) + (n - 1) * Count(es, code);
    }
  }

  /** Feeding two sample sequences one after the other leaves the state that
      feeding their concatenation leaves. */
  lemma {:induction false} FinalAppend(mode: Mode, state: byte, xs: seq<Pattern>, ys: seq<Pattern>)
    requires IsRow(mode, state)
    ensures Final(mode, state, xs + ys) == Final(mode, Final(mode, state, xs), ys)
    decreases |xs|
  {
    if xs == [] {
      assert xs + ys == ys;
    } else {
      assert (xs + ys)[0] == xs[0] && (xs + ys)[1..] == xs[1..] + ys;
      FinalAppend(mode, Step(mode, state, xs[0]), xs[1..], ys);
    }
  }

  /** ... and returns the codes of the first sequence followed by those of the
      second. */
  lemma {:induction false} EventsAppend(mode: Mode, state: byte, xs: seq<Pattern>, ys: seq<Pattern>)
    requires IsRow(mode, state)
    ensures Events(mode, state, xs + ys) == Events(mode, state, xs) + Events(mode, Final(mode, state, xs), ys)
    decreases |xs|
  {
    if xs == [] {
      assert xs + ys == ys;
    } else {
      var x, tail := xs[0], xs[1..];
      var next := Step(mode, state, x);
      HeadTail(xs, ys);
      EventsCons(mode, state, x, tail + ys);
      EventsCons(mode, state, x, tail);
      FinalCons(mode, state, x, tail);
      EventsAppend(mode, next, tail, ys);
      ConsAssoc(EventBits(next), Events(mode, next, tail), Events(mode, Final(mode, next, tail), ys));
    }
  }

  /** A non-empty sequence is its head followed by its tail, also when
      something is appended. */
  lemma HeadTail<T>(xs: seq<T>, ys: seq<T>)
    requires xs != []
    ensures xs == [xs[0]] + xs[1..] && xs + ys == [xs[0]] + (xs[1..] + ys)
  {
  }

  /** Concatenation after a head element regroups. */
  lemma ConsAssoc<T>(e: T, a: seq<T>, b: seq<T>)
    ensures [e] + (a + b) == ([e] + a) + b
  {
  }

  /** Unfolding a run by its first sample. */
  lemma {:induction false} FinalCons(mode: Mode, state: byte, p: Pattern, ps: seq<Pattern>)
    requires IsRow(mode, state)
    ensures Final(mode, state, [p] + ps) == Final(mode, Step(mode, state, p), ps)
  {
    assert ([p] + ps)[0] == p && ([p] + ps)[1..] == ps;
  }

  /** The same unfolding for the codes a run returns. */
  lemma {:induction false} EventsCons(mode: Mode, state: byte, p: Pattern, ps: seq<Pattern>)
    requires IsRow(mode, state)
    ensures Events(mode, state, [p] + ps) == [EventBits(Step(mode, state, p))] + Events(mode, Step(mode, state, p), ps)
  {
    assert ([p] + ps)[0] == p && ([p] + ps)[1..] == ps;
  }

  /** The decoder looks only at the sub-state field: two bytes with the same
      low nibble make the same run. */
  lemma {:induction false} RunIgnoresEventBits(mode: Mode, s1: byte, s2: byte, ps: seq<Pattern>)
    requires IsRow(mode, s1) && SubState(s1) == SubState(s2)
    ensures IsRow(mode, s2)
    ensures ps != [] ==> Final(mode, s1, ps) == Final(mode, s2, ps)
    ensures Events(mode, s1, ps) == Events(mode, s2, ps)
  {
    if ps != [] {
      assert Step(mode, s1, ps[0]) == Step(mode, s2, ps[0]);
    }
  }

  /** No code in `es` is an event. */
  predicate Quiet(es: seq<byte>) {
    forall i :: 0 <= i < |es| ==> es[i] == DIR_NONE
  }

  // ---------------------------------------------------------------------------
  // Properties of a single decode step

  /** A decode call reports an event only when the pins are at a rest position:
      00 or 11 in half-step mode, 11 only in full-step mode. */
  lemma EventsOnlyAtRest(mode: Mode, state: byte, p: byte)
    requires IsRow(mode, state) && p < 4
    ensures EventBits(Step(mode, state, p)) != DIR_NONE ==>
              match mode
              case HalfStep => p == 0 || p == 3
              case FullStep => p == 3
  {
    match mode
    case HalfStep => HalfStepTable.EventCells(SubState(state), p);
    case FullStep => FullStepTable.EventCells(SubState(state), p);
  }

  /** A sample equal to the sub-state's entry pattern, or one phase away from
      it, moves to a sub-state whose entry pattern is that sample: the decoder
      keeps track of where the pins are. Holds for any stored byte, event
      bits or not. */
  lemma Tracking(mode: Mode, state: byte, p: byte)
    requires IsRow(mode, state) && p < 4
    requires p == EntryPattern(mode, SubState(state)) || Adjacent(EntryPattern(mode, SubState(state)), p)
    ensures EntryPattern(mode, SubState(Step(mode, state, p))) == p
  {
    match mode
    case HalfStep => HalfStepTable.Tracking(SubState(state), p);
    case FullStep => FullStepTable.Tracking(SubState(state), p);
  }

  /** A sample that changes both phases at once cannot come from a clean
      rotation: from any stored byte it resets the machine and reports no
      event. */
  lemma IllegalJumpResets(mode: Mode, state: byte, p: byte)
    requires IsRow(mode, state) && p < 4
    requires EntryPattern(mode, SubState(state)) ^ p == 3
    ensures IsReset(mode, Step(mode, state, p))
    ensures EventBits(Step(mode, state, p)) == DIR_NONE
  {
    match mode
    case HalfStep => HalfStepTable.IllegalJumpResets(SubState(state), p);
    case FullStep => FullStepTable.IllegalJumpResets(SubState(state), p);
  }

  /** Sampling the same pattern a second time reports nothing, and from the
      second sample on the state no longer changes. */
  lemma RepeatedSampleIsQuiet(mode: Mode, state: byte, p: byte)
    requires IsRow(mode, state) && p < 4
    ensures EventBits(Step(mode, Step(mode, state, p), p)) == DIR_NONE
    ensures Step(mode, Step(mode, Step(mode, state, p), p), p) == Step(mode, Step(mode, state, p), p)
  {
    match mode
    case HalfStep => HalfStepTable.RepeatedColumn(SubState(state), p);
    case FullStep => FullStepTable.RepeatedColumn(SubState(state), p);
  }

  /** The second identical sample can still move the sub-state: after the
      illegal jump 01 from R_CCW_BEGIN (half-step) the machine is at R_START,
      and a second 01 takes it on to R_CW_BEGIN. */
  lemma SecondSampleCanMove()
    ensures Step(HalfStep, HalfStepTable.R_CCW_BEGIN, 1) == R_START
    ensures Step(HalfStep, Step(HalfStep, HalfStepTable.R_CCW_BEGIN, 1), 1) == HalfStepTable.R_CW_BEGIN
  {
  }

  /** A bounce on one phase, away from the entry pattern and back: if the first
      edge reports nothing, the second returns to `sub`; if it reports a step,
      the second lands silently in a plain sub-state with the same entry
      pattern, from which the next such edge is silent. Stated for a bare
      sub-state; a byte that still carries event bits (such as
      R_START_M | DIR_CW after a report) behaves as its sub-state, by
      `RunIgnoresEventBits`. */
  lemma Bounce(mode: Mode, sub: byte, q: byte)
    requires sub < Rows(mode) && q < 4 && Adjacent(EntryPattern(mode, sub), q)
    ensures var mid := Step(mode, sub, q);
              var back := Step(mode, mid, EntryPattern(mode, sub));
              if EventBits(mid) == DIR_NONE then back == sub
              else back < Rows(mode) && EntryPattern(mode, back) == EntryPattern(mode, sub) &&
                   EventBits(Step(mode, back, q)) == DIR_NONE && EventBits(back) == DIR_NONE
  {
    assert SubState(sub) == sub;
    match mode
    case HalfStep => HalfStepTable.Bounce(sub, q);
    case FullStep => FullStepTable.Bounce(sub, q);
  }

  /** A step is reported only on the last two samples of a detent in its own
      direction. Half-step: clockwise after 01 then 00 or 10 then 11,
      counter-clockwise after 10 then 00 or 01 then 11. Full-step: clockwise
      after 10 then 11, counter-clockwise after 01 then 11. */
  lemma ReportFollowsApproach(mode: Mode, state: byte, p: byte, q: byte)
    requires IsRow(mode, state) && p < 4 && q < 4
    ensures var e := EventBits(Step(mode, Step(mode, state, p), q));
              match mode
              case HalfStep =>
                (e == DIR_CW ==> (p == 1 && q == 0) || (p == 2 && q == 3)) &&
                (e == DIR_CCW ==> (p == 2 && q == 0) || (p == 1 && q == 3))
              case FullStep =>
                (e == DIR_CW ==> p == 2 && q == 3) && (e == DIR_CCW ==> p == 1 && q == 3)
  {
    match mode
    case HalfStep => HalfStepTable.ReportFollowsApproach(SubState(state), p, q);
    case FullStep => FullStepTable.ReportFollowsApproach(SubState(state), p, q);
  }

  // ---------------------------------------------------------------------------
  // Held pins

  /** A state that one more sample of `p` leaves unchanged stays put for any
      number of further samples of `p`. */
  lemma {:induction false} HoldAtFixpoint(mode: Mode, state: byte, p: Pattern, n: nat)
    requires IsRow(mode, state) && Step(mode, state, p) == state
    ensures Final(mode, state, Repeat([p], n)) == state
    ensures Events(mode, state, Repeat([p], n)) == Repeat([EventBits(state)], n)
  {
    if n > 0 {
      assert Repeat([p], n) == [p] + Repeat([p], n - 1);
      HoldAtFixpoint(mode, state, p, n - 1);
      FinalCons(mode, state, p, Repeat([p], n - 1));
      EventsCons(mode, state, p, Repeat([p], n - 1));
    }
  }

  /** Pins held at one pattern: from the second call on the state stays
      where the second call put it. */
  lemma {:induction false} HoldSettles(mode: Mode, state: byte, p: Pattern, n: nat)
    requires IsRow(mode, state) && n >= 2
    ensures Final(mode, state, Repeat([p], n)) == Step(mode, Step(mode, state, p), p)
  {
    var settled := Step(mode, Step(mode, state, p), p);
    var tail := Repeat([p], n - 2);
    assert Repeat([p], n) == [p, p] + tail;
    RepeatedSampleIsQuiet(mode, state, p);
    HoldAtFixpoint(mode, settled, p, n - 2);
    RunOfPair(mode, state, p, p);
    FinalAppend(mode, state, [p, p], tail);
  }

  /** Pins held at one pattern: only the first call can report an event. */
  lemma {:induction false} HoldQuiet(mode: Mode, state: byte, p: Pattern, n: nat)
    requires IsRow(mode, state) && n >= 1
    ensures var es := Events(mode, state, Repeat([p], n));
              es[0] == EventBits(Step(mode, state, p)) && Quiet(es[1..])
  {
    var once := Step(mode, state, p);
    var settled := Step(mode, once, p);
    var tail := Repeat([p], n - 1);
    assert Repeat([p], n) == [p] + tail;
    EventsCons(mode, state, p, tail);
    if n >= 2 {
      assert tail == [p] + Repeat([p], n - 2);
      RepeatedSampleIsQuiet(mode, state, p);
      HoldAtFixpoint(mode, settled, p, n - 2);
      EventsCons(mode, once, p, Repeat([p], n - 2));
      RepeatConst(DIR_NONE, n - 2);
      QuietAppend([DIR_NONE], Repeat([DIR_NONE], n - 2));
    }
  }

  /** `n` copies of one code are all that code. */
  lemma {:induction false} RepeatConst(e: byte, n: nat)
    ensures forall i :: 0 <= i < |Repeat([e], n)| ==> Repeat([e], n)[i] == e
  {
    RepeatElements([e], n);
  }

  // ---------------------------------------------------------------------------
  // Contact bounce

  /** `n` bounces of one phase: the pattern `q`, then back to `home`, `n`
      times. */
  function Chatter(q: Pattern, home: Pattern, n: nat): (ps: seq<Pattern>)
    ensures |ps| == 2 * n
  {
    RepeatElements([q, home], n);
    Repeat([q, home], n)
  }

  /** The two samples of one bounce, as a run. */
  lemma RunOfPair(mode: Mode, state: byte, p: Pattern, q: Pattern)
    requires IsRow(mode, state)
    ensures var mid := Step(mode, state, p);
              Final(mode, state, [p, q]) == Step(mode, mid, q) &&
              Events(mode, state, [p, q]) == [EventBits(mid), EventBits(Step(mode, mid, q))]
  {
    assert [p, q] == [p] + [q];
    FinalCons(mode, state, p, [q]);
    EventsCons(mode, state, p, [q]);
    RunOfOne(mode, Step(mode, state, p), q);
  }

  /** A single sample, as a run. */
  lemma RunOfOne(mode: Mode, state: byte, p: Pattern)
    requires IsRow(mode, state)
    ensures Final(mode, state, [p]) == Step(mode, state, p)
    ensures Events(mode, state, [p]) == [EventBits(Step(mode, state, p))]
  {
    assert [p][1..] == [];
  }

  /** The first bounce of a chatter, peeled off. */
  lemma {:induction false} ChatterUnfold(mode: Mode, state: byte, q: Pattern, home: Pattern, n: nat)
    requires IsRow(mode, state) && n > 0
    ensures var mid := Step(mode, state, q);
              var back := Step(mode, mid, home);
              Final(mode, state, Chatter(q, home, n)) == Final(mode, back, Chatter(q, home, n - 1)) &&
              Events(mode, state, Chatter(q, home, n)) ==
                [EventBits(mid), EventBits(back)] + Events(mode, back, Chatter(q, home, n - 1))
  {
    RunOfPair(mode, state, q, home);
    FinalAppend(mode, state, [q, home], Chatter(q, home, n - 1));
    EventsAppend(mode, state, [q, home], Chatter(q, home, n - 1));
  }

  /** Quiet chatter: from a sub-state whose next bounce does not fire, any
      number of bounces reports nothing and ends where it began. Stated for a
      bare sub-state; a byte that still carries event bits (such as
      R_START_M | DIR_CW after a report) behaves as its sub-state, by
      `RunIgnoresEventBits`. */
  lemma {:induction false} QuietChatter(mode: Mode, sub: byte, q: Pattern, home: Pattern, n: nat)
    requires sub < Rows(mode) && home == EntryPattern(mode, sub) && Adjacent(home, q)
    requires EventBits(Step(mode, sub, q)) == DIR_NONE
    ensures Final(mode, sub, Chatter(q, home, n)) == sub
    ensures Quiet(Events(mode, sub, Chatter(q, home, n)))
  {
    if n > 0 {
      QuietChatter(mode, sub, q, home, n - 1);
      Bounce(mode, sub, q);
      ChatterUnfold(mode, sub, q, home, n);
      assert EventBits(sub) == DIR_NONE;
      QuietAppend([DIR_NONE, DIR_NONE], Events(mode, sub, Chatter(q, home, n - 1)));
    }
  }

  /** Concatenating two quiet runs of codes gives a quiet run. */
  lemma {:induction false} QuietAppend(xs: seq<byte>, ys: seq<byte>)
    requires Quiet(xs) && Quiet(ys)
    ensures Quiet(xs + ys)
  {
    forall i | 0 <= i < |xs + ys| ensures (xs + ys)[i] == DIR_NONE {
      if i >= |xs| { assert (xs + ys)[i] == ys[i - |xs|]; }
    }
  }

  /** After the first bounce of a chatter, whether or not it fired, the
      remaining bounces report nothing. */
  lemma {:induction false} ChatterTailQuiet(mode: Mode, sub: byte, q: Pattern, home: Pattern, n: nat)
    requires sub < Rows(mode) && home == EntryPattern(mode, sub) && Adjacent(home, q) && n > 0
    ensures var back := Step(mode, Step(mode, sub, q), home);
              EventBits(back) == DIR_NONE && Quiet(Events(mode, back, Chatter(q, home, n - 1)))
  {
    Bounce(mode, sub, q);
    var back := Step(mode, Step(mode, sub, q), home);
    if EventBits(Step(mode, sub, q)) == DIR_NONE {
      assert back == sub;
      QuietChatter(mode, sub, q, home, n - 1);
    } else {
      QuietChatter(mode, back, q, home, n - 1);
    }
  }

  /** However long one phase chatters around the entry pattern of the
      sub-state, at most one event is reported, and only on the first call,
      where it is whatever the first edge gives. Stated for a bare sub-state;
      a byte that still carries event bits (such as R_START_M | DIR_CW after a
      report) behaves as its sub-state, by `RunIgnoresEventBits`. */
  lemma {:induction false} ChatterEmitsAtMostOnce(mode: Mode, sub: byte, q: Pattern, home: Pattern, n: nat)
    requires sub < Rows(mode) && home == EntryPattern(mode, sub) && Adjacent(home, q) && n > 0
    ensures var es := Events(mode, sub, Chatter(q, home, n));
              es[0] == EventBits(Step(mode, sub, q)) && Quiet(es[1..])
  {
    ChatterUnfold(mode, sub, q, home, n);
    ChatterTailQuiet(mode, sub, q, home, n);
    var mid := Step(mode, sub, q);
    var back := Step(mode, mid, home);
    var tail := Events(mode, back, Chatter(q, home, n - 1));
    QuietAppend([DIR_NONE], tail);
    DropFirst(EventBits(mid), DIR_NONE, tail);
  }

  /** Dropping the head of a sequence that starts with two known elements. */
  lemma DropFirst<T>(a: T, b: T, rest: seq<T>)
    ensures ([a, b] + rest)[0] == a && ([a, b] + rest)[1..] == [b] + rest
  {
  }

  // ---------------------------------------------------------------------------
  // Clean rotation

  /** One detent from rest (11) in the direction the tables report as
      clockwise, as pin patterns `(B << 1) | A`. */
  const CW_TURN: seq<Pattern> := [1, 0, 2, 3]

  /** One detent from rest in the direction the tables report as
      counter-clockwise. */
  const CCW_TURN: seq<Pattern> := [2, 0, 1, 3]

  /** The clockwise cycle of the Gray-code comment in rotary.c, phase A
      then phase B: 00, 10, 11, 01. Started from rest 11 and packed as
      `(B << 1) | A`, it is `CCW_TURN`, which the tables report as
      counter-clockwise. */
  lemma CommentClockwiseIsTableCounterClockwise(mode: Mode)
    ensures [PinState(false, true), PinState(false, false), PinState(true, false), PinState(true, true)] == CCW_TURN
    ensures Events(mode, R_START, CCW_TURN) == TurnEvents(mode, DIR_CCW)
  {
    CleanTurn(mode, CCW_TURN, DIR_CCW);
  }

  /** The codes one detent reports: two steps in half-step mode (at 00 and at
      11), one in full-step mode (at 11). */
  function TurnEvents(mode: Mode, code: byte): (es: seq<byte>)
    ensures |es| == 4
  {
    match mode
    case HalfStep => [DIR_NONE, code, DIR_NONE, code]
    case FullStep => [DIR_NONE, DIR_NONE, DIR_NONE, code]
  }

  /** Steps reported per detent. */
  function StepsPerDetent(mode: Mode): nat {
    match mode
    case HalfStep => 2
    case FullStep => 1
  }

  /** One clean detent in either direction from R_START reports the codes of
      a detent and comes back to the R_START sub-state, the last entry
      carrying the direction bits. */
  lemma {:induction false} CleanTurn(mode: Mode, turn: seq<Pattern>, code: byte)
    requires (turn == CW_TURN && code == DIR_CW) || (turn == CCW_TURN && code == DIR_CCW)
    ensures Final(mode, R_START, turn) == R_START | code
    ensures Events(mode, R_START, turn) == TurnEvents(mode, code)
  {
  }

  /** The same detent from any byte whose sub-state is R_START. */
  lemma {:induction false} CleanTurnFrom(mode: Mode, state: byte, turn: seq<Pattern>, code: byte)
    requires (turn == CW_TURN && code == DIR_CW) || (turn == CCW_TURN && code == DIR_CCW)
    requires SubState(state) == R_START
    ensures IsRow(mode, state)
    ensures Final(mode, state, turn) == R_START | code
    ensures Events(mode, state, turn) == TurnEvents(mode, code)
  {
    CleanTurn(mode, turn, code);
    RunIgnoresEventBits(mode, R_START, state, turn);
  }

  /** `n` clean detents in one direction end at the R_START sub-state. */
  lemma {:induction false} CleanTurnsEnd(mode: Mode, state: byte, turn: seq<Pattern>, code: byte, n: nat)
    requires (turn == CW_TURN && code == DIR_CW) || (turn == CCW_TURN && code == DIR_CCW)
    requires SubState(state) == R_START
    ensures IsRow(mode, state)
    ensures SubState(Final(mode, state, Repeat(turn, n))) == R_START
    decreases n
  {
    CleanTurnFrom(mode, state, turn, code);
    if n > 0 {
      CleanTurnsEnd(mode, R_START | code, turn, code, n - 1);
      FinalAppend(mode, state, turn, Repeat(turn, n - 1));
    }
  }

  /** `n` clean detents in one direction report the codes of one detent `n`
      times. */
  lemma {:induction false} CleanTurns(mode: Mode, state: byte, turn: seq<Pattern>, code: byte, n: nat)
    requires (turn == CW_TURN && code == DIR_CW) || (turn == CCW_TURN && code == DIR_CCW)
    requires SubState(state) == R_START
    ensures IsRow(mode, state)
    ensures Events(mode, state, Repeat(turn, n)) == Repeat(TurnEvents(mode, code), n)
    decreases n
  {
    CleanTurnFrom(mode, state, turn, code);
    if n > 0 {
      CleanTurns(mode, R_START | code, turn, code, n - 1);
      EventsAppend(mode, state, turn, Repeat(turn, n - 1));
    }
  }

  /** `n` clean detents report `n` steps per detent in their own direction
      and none in the other. */
  lemma {:induction false} TurnCount(mode: Mode, turn: seq<Pattern>, code: byte, other: byte, n: nat)
    requires (turn == CW_TURN && code == DIR_CW && other == DIR_CCW) ||
             (turn == CCW_TURN && code == DIR_CCW && other == DIR_CW)
    ensures Count(Events(mode, R_START, Repeat(turn, n)), code) == StepsPerDetent(mode) * n
    ensures Count(Events(mode, R_START, Repeat(turn, n)), other) == 0
  {
    CleanTurns(mode, R_START, turn, code, n);
    TurnEventsCount(mode, code, other);
    CountRepeat(TurnEvents(mode, code), n, code);
    CountRepeat(TurnEvents(mode, code), n, other);
  }

  /** One detent reports its own direction once per step and never the other. */
  lemma TurnEventsCount(mode: Mode, code: byte, other: byte)
    requires (code == DIR_CW && other == DIR_CCW) || (code == DIR_CCW && other == DIR_CW)
    ensures Count(TurnEvents(mode, code), code) == StepsPerDetent(mode)
    ensures Count(TurnEvents(mode, code), other) == 0
  {
    var es := TurnEvents(mode, code);
    assert es == [es[0], es[1], es[2], es[3]];
    CountFour(es[0], es[1], es[2], es[3], code);
    CountFour(es[0], es[1], es[2], es[3], other);
  }

  /** Half-step mode reports twice as many steps as full-step mode for the
      same clean rotation. */
  lemma {:induction false} HalfStepDoublesResolution(turn: seq<Pattern>, code: byte, n: nat)
    requires (turn == CW_TURN && code == DIR_CW) || (turn == CCW_TURN && code == DIR_CCW)
    ensures Count(Events(HalfStep, R_START, Repeat(turn, n)), code) ==
              2 * Count(Events(FullStep, R_START, Repeat(turn, n)), code)
  {
    assert StepsPerDetent(HalfStep) * n == 2 * n && StepsPerDetent(FullStep) * n == n;
    if code == DIR_CW {
      TurnCount(HalfStep, turn, DIR_CW, DIR_CCW, n);
      TurnCount(FullStep, turn, DIR_CW, DIR_CCW, n);
    } else {
      TurnCount(HalfStep, turn, DIR_CCW, DIR_CW, n);
      TurnCount(FullStep, turn, DIR_CCW, DIR_CW, n);
    }
  }

  // ---------------------------------------------------------------------------
  // A reported step needs a detent

  /** Feeding one more sample. */
  lemma FinalSnoc(mode: Mode, state: byte, ps: seq<Pattern>, p: Pattern)
    requires IsRow(mode, state)
    ensures Final(mode, state, ps + [p]) == Step(mode, Final(mode, state, ps), p)
  {
    FinalAppend(mode, state, ps, [p]);
    RunOfOne(mode, Final(mode, state, ps), p);
  }

  /** The code the `i`-th call returns is the event of one step from the
      state the first `i` calls left. */
  lemma EventAt(mode: Mode, state: byte, ps: seq<Pattern>, i: nat)
    requires IsRow(mode, state) && i < |ps|
    ensures Events(mode, state, ps)[i] == EventBits(Step(mode, Final(mode, state, ps[..i]), ps[i]))
  {
    var s := Final(mode, state, ps[..i]);
    assert ps == ps[..i] + ([ps[i]] + ps[i + 1..]);
    EventsAppend(mode, state, ps[..i], [ps[i]] + ps[i + 1..]);
    EventsCons(mode, s, ps[i], ps[i + 1..]);
    assert |Events(mode, state, ps[..i])| == i;
  }

  /** From R_START, a call that reports a step is never the first, and it and
      the call before it saw the last two samples of a detent in the reported
      direction. */
  lemma ReportEndsOwnDetent(mode: Mode, ps: seq<Pattern>, i: nat)
    requires i < |ps| && Events(mode, R_START, ps)[i] != DIR_NONE
    ensures i >= 1 &&
            var e := Events(mode, R_START, ps)[i];
            match mode
            case HalfStep =>
              (e == DIR_CW ==> (ps[i - 1] == 1 && ps[i] == 0) || (ps[i - 1] == 2 && ps[i] == 3)) &&
              (e == DIR_CCW ==> (ps[i - 1] == 2 && ps[i] == 0) || (ps[i - 1] == 1 && ps[i] == 3))
            case FullStep =>
              (e == DIR_CW ==> ps[i - 1] == 2 && ps[i] == 3) &&
              (e == DIR_CCW ==> ps[i - 1] == 1 && ps[i] == 3)
  {
    EventAt(mode, R_START, ps, i);
    if i > 0 {
      var init := ps[..i - 1];
      assert ps[..i] == init + [ps[i - 1]];
      FinalSnoc(mode, R_START, init, ps[i - 1]);
      ReportFollowsApproach(mode, Final(mode, R_START, init), ps[i - 1], ps[i]);
    }
  }

  /** The elements of `pat` occur in `xs` in this order, not necessarily next
      to each other. */
  predicate InOrder(xs: seq<byte>, pat: seq<byte>)
    decreases |xs|
  {
    if pat == [] then true
    else if xs == [] then false
    else if xs[|xs| - 1] == pat[|pat| - 1] then InOrder(xs[..|xs| - 1], pat[..|pat| - 1])
    else InOrder(xs[..|xs| - 1], pat)
  }

  /** A pattern in order stays in order without its last element. */
  lemma {:induction false} InOrderShorter(xs: seq<byte>, pat: seq<byte>)
    requires pat != [] && InOrder(xs, pat)
    ensures InOrder(xs, pat[..|pat| - 1])
    decreases |xs|
  {
    var init, shorter := xs[..|xs| - 1], pat[..|pat| - 1];
    if shorter != [] {
      if xs[|xs| - 1] != pat[|pat| - 1] {
        InOrderShorter(init, pat);
      }
      if xs[|xs| - 1] == shorter[|shorter| - 1] {
        InOrderShorter(init, shorter);
      }
    }
  }

  /** A prefix of a pattern in order is in order. */
  lemma {:induction false} InOrderPrefix(xs: seq<byte>, pat: seq<byte>, j: nat, k: nat)
    requires j <= k <= |pat| && InOrder(xs, pat[..k])
    ensures InOrder(xs, pat[..j])
    decreases k
  {
    if j < k {
      InOrderShorter(xs, pat[..k]);
      assert pat[..k][..k - 1] == pat[..k - 1];
      InOrderPrefix(xs, pat, j, k - 1);
    }
  }

  /** More samples keep a pattern in order. */
  lemma InOrderExtend(xs: seq<byte>, x: byte, pat: seq<byte>)
    requires InOrder(xs, pat)
    ensures InOrder(xs + [x], pat)
  {
    assert (xs + [x])[..|xs|] == xs;
    if pat != [] && x == pat[|pat| - 1] {
      InOrderShorter(xs, pat);
    }
  }

  /** A sample equal to the next element of the pattern extends it by one. */
  lemma InOrderAdvance(xs: seq<byte>, x: byte, pat: seq<byte>, k: nat)
    requires k < |pat| && x == pat[k] && InOrder(xs, pat[..k])
    ensures InOrder(xs + [x], pat[..k + 1])
  {
    assert (xs + [x])[..|xs|] == xs;
    assert pat[..k + 1][..k] == pat[..k];
  }

  /** Full-step, from any byte whose sub-state is R_START: the samples seen
      so far contain, in order, as many patterns of the approach in direction
      `code` as the sub-state's progress says. */
  lemma {:induction false} FullStepApproachSeen(state: byte, ps: seq<Pattern>, code: byte)
    requires SubState(state) == R_START && (code == DIR_CW || code == DIR_CCW)
    ensures InOrder(ps, FullStepTable.Approach(code)[..FullStepTable.Progress(SubState(Final(FullStep, state, ps)), code)])
    decreases |ps|
  {
    var approach := FullStepTable.Approach(code);
    if ps == [] {
      assert approach[..0] == [];
    } else {
      var init, p := ps[..|ps| - 1], ps[|ps| - 1];
      assert ps == init + [p];
      FullStepApproachSeen(state, init, code);
      var s := Final(FullStep, state, init);
      FinalSnoc(FullStep, state, init, p);
      FullStepTable.ProgressStep(SubState(s), p, code);
      var k := FullStepTable.Progress(SubState(s), code);
      var next := FullStepTable.Progress(SubState(Step(FullStep, s, p)), code);
      if next <= k {
        InOrderPrefix(init, approach, next, k);
        InOrderExtend(init, p, approach[..next]);
      } else {
        InOrderAdvance(init, p, approach, k);
      }
    }
  }

  /** Full-step, from any byte whose sub-state is R_START: a sample that
      completes a step in direction `code` is 11, and the samples before it
      contain that direction's approach in order. */
  lemma FullStepArmed(state: byte, ps: seq<Pattern>, p: Pattern, code: byte)
    requires SubState(state) == R_START && (code == DIR_CW || code == DIR_CCW)
    requires EventBits(Step(FullStep, Final(FullStep, state, ps), p)) == code
    ensures p == 3 && InOrder(ps, FullStepTable.Approach(code))
  {
    FullStepTable.EventCells(SubState(Final(FullStep, state, ps)), p);
    FullStepApproachSeen(state, ps, code);
    assert FullStepTable.Approach(code)[..3] == FullStepTable.Approach(code);
  }

  /** Full-step, from any byte whose sub-state is R_START (R_START itself,
      or the byte a report leaves): a call that reports a step sees 11, and
      the samples before it contain the first three patterns of a detent in
      the reported direction, in order. */
  lemma FullStepReportNeedsDetent(state: byte, ps: seq<Pattern>, i: nat)
    requires SubState(state) == R_START
    requires i < |ps| && Events(FullStep, state, ps)[i] != DIR_NONE
    ensures var e := Events(FullStep, state, ps)[i];
              ps[i] == 3 && (e == DIR_CW || e == DIR_CCW) &&
              (e == DIR_CW ==> InOrder(ps[..i], CW_TURN[..3])) &&
              (e == DIR_CCW ==> InOrder(ps[..i], CCW_TURN[..3]))
  {
    EventAt(FullStep, state, ps, i);
    EventsAreDirections(FullStep, state, ps);
    var e := Events(FullStep, state, ps)[i];
    ApproachesAreTurns();
    if e == DIR_CW {
      FullStepArmed(state, ps[..i], ps[i], DIR_CW);
    } else {
      FullStepArmed(state, ps[..i], ps[i], DIR_CCW);
    }
  }

  /** Full-step: the call that reports a step leaves sub-state R_START. */
  lemma FullStepAfterReport(state: byte, ps: seq<Pattern>, i: nat)
    requires IsRow(FullStep, state) && i < |ps| && Events(FullStep, state, ps)[i] != DIR_NONE
    ensures SubState(Final(FullStep, state, ps[..i + 1])) == R_START
  {
    EventAt(FullStep, state, ps, i);
    assert ps[..i + 1] == ps[..i] + [ps[i]];
    FinalSnoc(FullStep, state, ps[..i], ps[i]);
    FullStepTable.ReportReturnsToStart(SubState(Final(FullStep, state, ps[..i])), ps[i]);
  }

  /** Half-step: the call that reports a step saw a rest position, and leaves
      sub-state R_START_M after 00 and R_START after 11. */
  lemma HalfStepAfterReport(state: byte, ps: seq<Pattern>, i: nat)
    requires IsRow(HalfStep, state) && i < |ps| && Events(HalfStep, state, ps)[i] != DIR_NONE
    ensures ps[i] == 0 || ps[i] == 3
    ensures SubState(Final(HalfStep, state, ps[..i + 1])) == if ps[i] == 0 then HalfStepTable.R_START_M else R_START
  {
    EventAt(HalfStep, state, ps, i);
    assert ps[..i + 1] == ps[..i] + [ps[i]];
    FinalSnoc(HalfStep, state, ps[..i], ps[i]);
    HalfStepTable.ReportLandsAtRest(SubState(Final(HalfStep, state, ps[..i])), ps[i]);
  }

  /** The codes from call `m` on are those of a run started from the byte the
      first `m` calls left. */
  lemma EventsFrom(mode: Mode, state: byte, ps: seq<Pattern>, m: nat, j: nat)
    requires IsRow(mode, state) && m <= j < |ps|
    ensures Events(mode, state, ps)[j] == Events(mode, Final(mode, state, ps[..m]), ps[m..])[j - m]
  {
    assert ps == ps[..m] + ps[m..];
    EventsAppend(mode, state, ps[..m], ps[m..]);
  }

  /** A slice of a suffix is a slice of the whole. */
  lemma SliceOfSuffix<T>(ps: seq<T>, m: nat, j: nat)
    requires m <= j <= |ps|
    ensures ps[m..][..j - m] == ps[m..j]
  {
  }

  /** Full-step, from R_START: between a report at call `i` and a later
      report at call `j`, the samples strictly between them contain, in
      order, the first three patterns of a detent in the direction `j`
      reports. Two reports never share one detent. */
  lemma FullStepEachReportNeedsOwnDetent(ps: seq<Pattern>, i: nat, j: nat)
    requires i < j < |ps|
    requires Events(FullStep, R_START, ps)[i] != DIR_NONE && Events(FullStep, R_START, ps)[j] != DIR_NONE
    ensures var e := Events(FullStep, R_START, ps)[j];
              (e == DIR_CW ==> InOrder(ps[i + 1..j], CW_TURN[..3])) &&
              (e == DIR_CCW ==> InOrder(ps[i + 1..j], CCW_TURN[..3]))
  {
    var s := SplitAfterReport(ps, i, j);
    var rest, k := ps[i + 1..], j - (i + 1);
    var e := Events(FullStep, R_START, ps)[j];
    assert e == Events(FullStep, s, rest)[k];
    FullStepReportNeedsDetent(s, rest, k);
    assert rest[..k] == ps[i + 1..j];
  }

  /** Full-step, from R_START: the run after a report at call `i` starts from
      a byte whose sub-state is R_START, and its call `j - i - 1` is call `j`
      of the whole run. */
  lemma SplitAfterReport(ps: seq<Pattern>, i: nat, j: nat) returns (s: byte)
    requires i < j < |ps| && Events(FullStep, R_START, ps)[i] != DIR_NONE
    ensures SubState(s) == R_START
    ensures Events(FullStep, R_START, ps)[j] == Events(FullStep, s, ps[i + 1..])[j - (i + 1)]
    ensures ps[i + 1..][..j - (i + 1)] == ps[i + 1..j]
  {
    FullStepAfterReport(R_START, ps, i);
    s := Final(FullStep, R_START, ps[..i + 1]);
    EventsFrom(FullStep, R_START, ps, i + 1, j);
    SliceOfSuffix(ps, i + 1, j);
  }

  /** The full-step approaches are the first three patterns of the two turns. */
  lemma ApproachesAreTurns()
    ensures FullStepTable.Approach(DIR_CW) == CW_TURN[..3]
    ensures FullStepTable.Approach(DIR_CCW) == CCW_TURN[..3]
  {
  }

  // ---------------------------------------------------------------------------
  // Fixed sample sequences

  /** Full-step: a bounce back to 11 right after the first edge still yields
      exactly one clockwise step, at the end. */
  lemma FullStepBounceExample()
    ensures Final(FullStep, R_START, [1, 3, 1, 0, 2, 3]) == R_START | DIR_CW
    ensures Events(FullStep, R_START, [1, 3, 1, 0, 2, 3]) ==
              [DIR_NONE, DIR_NONE, DIR_NONE, DIR_NONE, DIR_NONE, DIR_CW]
  {
  }

  /** Out-of-sequence samples return to R_START with no event: 10 in the
      full-step R_CW_BEGIN, and 11 in R_START. */
  lemma OutOfSequenceExamples()
    ensures Step(FullStep, FullStepTable.R_CW_BEGIN, 2) == R_START
    ensures Step(FullStep, R_START, 3) == R_START
    ensures Step(HalfStep, R_START, 3) == R_START
  {
  }

  // ---------------------------------------------------------------------------
  // On a handle

  /** Two decode calls on one handle with unchanged pin levels: the second
      reports nothing, and a third would leave the state as the second did. */
  method ProcessTwice(r: Rotary, a: bool, b: bool) returns (first: byte, second: byte)
    requires r.Valid()
    modifies r`state
    ensures r.Valid()
    ensures first == EventBits(Step(r.mode, old(r.state), PinState(a, b)))
    ensures second == DIR_NONE
    ensures r.state == Step(r.mode, Step(r.mode, old(r.state), PinState(a, b)), PinState(a, b))
    ensures Step(r.mode, r.state, PinState(a, b)) == r.state
  {
    first := r.Process(a, b);
    second := r.Process(a, b);
    RepeatedSampleIsQuiet(r.mode, old(r.state), PinState(a, b));
  }
}
