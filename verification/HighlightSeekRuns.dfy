/**
 * Runs of seek presses, scrolling and other input, with redraws in between: exactly when the redraws make no
 * difference. Pressing n seeks before a redraw always lands where n presses with redraws in between do; scrolling
 * before a redraw need not, because it drops the seeks that wait and counts from where the view was last scrolled to.
 */
module HighlightSeekRuns {
  import opened Wrappers
  import opened HighlightSeeking
  import opened HighlightSeekGoals

  // ----- input -----

  const USIZE_MAX: nat := 0xFFFF_FFFF_FFFF_FFFF

  /** Scrolling by a page or the wheel, `scroll_start`, `scroll_end`, and input that leaves the offset alone. */
  datatype Motion = Up(lines: nat) | Down(lines: nat) | Top | Bottom | Stay

  function Moved(motion: Motion, offset: nat): nat {
    match motion
    case Up(lines) => if offset + lines <= USIZE_MAX then offset + lines else USIZE_MAX
    case Down(lines) => if lines <= offset then offset - lines else 0
    case Top => USIZE_MAX / 2
    case Bottom => 0
    case Stay => offset
  }

  /** Scrolling up pins the loaded history, and coming down to the bottom collapses it. */
  function Scrolled(v: View, limit: nat, motion: Motion): View {
    var moved := v.(offset := Moved(motion, v.offset));
    match motion
    case Up(_) => moved.(pinned := true)
    case Down(_) => Collapse(moved, limit)
    case Bottom => Collapse(moved, limit)
    case Top => moved
    case Stay => moved
  }

  /**
   * What the user does. A bound action drops a seek that waits before it acts; a plain key, the wheel and any other
   * input drop it afterwards.
   */
  datatype Input = Pressing(direction: Direction) | Moving(motion: Motion, bound: bool)

  function Happen(v: View, limit: nat, input: Input): View {
    match input
    case Pressing(direction) => Press(v, limit, direction)
    case Moving(motion, bound) => CancelPending(Scrolled(if bound then CancelPending(v) else v, limit, motion))
  }

  lemma HappenShrinks(v: View, limit: nat, input: Input)
    ensures Shrinks(v.messages, Happen(v, limit, input).messages, limit)
  {
    hide Press, Collapse;
    match input
    case Pressing(direction) => PressShrinks(v, limit, direction);
    case Moving(motion, bound) =>
      var w := if bound then CancelPending(v) else v;
      CollapseShrinks(w.(offset := Moved(motion, w.offset)), limit);
  }

  /** A motion that drops no messages: the view is then heading for what is at the offset reached. */
  lemma MoveGoal(r: Renderer, v: View, limit: nat, motion: Motion, bound: bool)
    requires Coherent(r, v) && Happen(v, limit, Moving(motion, bound)).messages == v.messages
    ensures var next, seek := Happen(v, limit, Moving(motion, bound)), CancelPending(v).seek;
            && Coherent(r, next) && next.messages == v.messages
            && next.offset == Moved(motion, v.offset) && next.seek == seek
            && Goal(r, next) == Landing(v.messages, seek, r(v.messages).clamp(Moved(motion, v.offset)))
  {
    hide UniqueIds, IndexOf, PressedAll, Moved;
    var w := if bound then CancelPending(v) else v;
    MotionKeeps(w, limit, motion);
    var next := Happen(v, limit, Moving(motion, bound));
    hide Scrolled;
    RowsTellAlike(v, next, r(v.messages));
  }

  lemma MotionKeeps(v: View, limit: nat, motion: Motion)
    requires Scrolled(v, limit, motion).messages == v.messages
    ensures var next := Scrolled(v, limit, motion);
            next == v.(offset := Moved(motion, v.offset), pinned := next.pinned)
  {
    hide Moved;
    var moved := v.(offset := Moved(motion, v.offset));
    if motion.Down? || motion.Bottom? {
      CollapseKeeps(moved, limit);
    }
  }

  // ----- two views in step -----

  /** Two views of the same messages that are heading for the same place. */
  ghost predicate InStep(r: Renderer, a: View, b: View) {
    Coherent(r, a) && Coherent(r, b) && a.messages == b.messages && Goal(r, a) == Goal(r, b)
  }

  /** The message shown again if a motion reaches this offset. */
  function ShownAgain(v: View, offset: nat): Option<nat> {
    if v.seek.Some? && v.seek.value.state.Shown? && v.seek.value.offset == offset then Some(v.seek.value.state.id)
    else None
  }

  /** The offset a motion reaches. */
  function Reached(r: Renderer, v: View, motion: Motion): nat { r(v.messages).clamp(Moved(motion, v.offset)) }

  /**
   * What decides, before the input, whether two views in step stay so. A motion must reach the same offset in both, and
   * that must not be where a sought message was shown in one of them only. A press must not come while just one of them
   * is about to be clamped back, unless the rows there and the message lead to the same place.
   */
  predicate Alike(r: Renderer, a: View, b: View, input: Input)
    requires a.messages == b.messages
  {
    match input
    case Pressing(direction) =>
      ClampPending(r, a) == ClampPending(r, b) ||
      Pressed(a.messages, r(a.messages), PressStart(r, a), direction) ==
      Pressed(b.messages, r(b.messages), PressStart(r, b), direction)
    case Moving(motion, _) =>
      var offset := Reached(r, a, motion);
      offset == Reached(r, b, motion) && ShownAgain(a, offset) == ShownAgain(b, offset)
  }

  lemma StepIff(r: Renderer, a: View, b: View, limit: nat, input: Input)
    requires InStep(r, a, b)
    requires Happen(a, limit, input).messages == a.messages && Happen(b, limit, input).messages == b.messages
    ensures Coherent(r, Happen(a, limit, input)) && Coherent(r, Happen(b, limit, input))
    ensures InStep(r, Happen(a, limit, input), Happen(b, limit, input)) <==> Alike(r, a, b, input)
  {
    hide Press, Coherent, Goal, Pressed, IndexOf, Landing;
    match input
    case Pressing(direction) =>
      PressGoal(r, a, limit, direction);
      PressGoal(r, b, limit, direction);
      if ClampPending(r, a) == ClampPending(r, b) {
        SameStart(r, a, b);
      }
    case Moving(motion, bound) =>
      MoveGoal(r, a, limit, motion, bound);
      MoveGoal(r, b, limit, motion, bound);
      hide Happen;
      LandAlikeIff(r, a, b, Reached(r, a, motion), Reached(r, b, motion));
  }

  /** Both clamped back: the rows they press from are those of the same offset. */
  lemma SameStart(r: Renderer, a: View, b: View)
    requires InStep(r, a, b) && ClampPending(r, a) == ClampPending(r, b)
    ensures PressStart(r, a) == PressStart(r, b)
  {
    hide UniqueIds, PressedAll, RowsTell;
  }

  lemma LandAlikeIff(r: Renderer, a: View, b: View, x: nat, y: nat)
    requires InStep(r, a, b)
    ensures Landing(a.messages, CancelPending(a).seek, x) == Landing(b.messages, CancelPending(b).seek, y) <==>
            x == y && ShownAgain(a, x) == ShownAgain(b, x)
  {
    hide Goal, RowsTell, UniqueIds;
  }

  // ----- two runs -----

  /** An input, and how often each of two runs is drawn before it. */
  datatype Turn = Turn(first: nat, second: nat, input: Input)

  function Redraws(turn: Turn, second: bool): nat { if second then turn.second else turn.first }

  function Drawn(r: Renderer, v: View, limit: nat, turn: Turn, second: bool): View {
    RedrawTimes(r, v, limit, Redraws(turn, second))
  }

  function Turned(r: Renderer, v: View, limit: nat, turn: Turn, second: bool): View {
    Happen(Drawn(r, v, limit, turn, second), limit, turn.input)
  }

  function Played(r: Renderer, v: View, limit: nat, turns: seq<Turn>, second: bool): View
    decreases |turns|
  {
    if turns == [] then v else Played(r, Turned(r, v, limit, turns[0], second), limit, turns[1..], second)
  }

  lemma TurnedShrinks(r: Renderer, v: View, limit: nat, turn: Turn, second: bool)
    ensures Shrinks(v.messages, Drawn(r, v, limit, turn, second).messages, limit)
    ensures Shrinks(Drawn(r, v, limit, turn, second).messages, Turned(r, v, limit, turn, second).messages, limit)
  {
    hide Happen, RedrawTimes, Shrinks;
    RedrawTimesShrink(r, v, limit, Redraws(turn, second));
    HappenShrinks(Drawn(r, v, limit, turn, second), limit, turn.input);
  }

  lemma {:induction false} PlayedShrinks(r: Renderer, v: View, limit: nat, turns: seq<Turn>, second: bool)
    ensures Shrinks(v.messages, Played(r, v, limit, turns, second).messages, limit)
    decreases |turns|
  {
    hide Turned;
    if turns != [] {
      var next := Turned(r, v, limit, turns[0], second);
      TurnedShrinks(r, v, limit, turns[0], second);
      ShrinksTwice(v.messages, Drawn(r, v, limit, turns[0], second).messages, next.messages, limit);
      PlayedShrinks(r, next, limit, turns[1..], second);
      ShrinksTwice(v.messages, next.messages, Played(r, v, limit, turns, second).messages, limit);
    }
  }

  /** A run that has all messages at the end has dropped none on the way. */
  lemma PlayedKeeps(r: Renderer, v: View, limit: nat, turns: seq<Turn>, second: bool)
    requires turns != [] && Played(r, v, limit, turns, second).messages == v.messages
    ensures Drawn(r, v, limit, turns[0], second).messages == v.messages
    ensures Turned(r, v, limit, turns[0], second).messages == v.messages
  {
    var drawn, next := Drawn(r, v, limit, turns[0], second), Turned(r, v, limit, turns[0], second);
    assert Played(r, v, limit, turns, second) == Played(r, next, limit, turns[1..], second);
    hide *;
    TurnedShrinks(r, v, limit, turns[0], second);
    PlayedShrinks(r, next, limit, turns[1..], second);
    ShrinksTwice(drawn.messages, next.messages, v.messages, limit);
    ShrinksBack(v.messages, drawn.messages, limit);
    ShrinksBack(v.messages, next.messages, limit);
  }

  /** Redraws leave every view as it is but for how much of its goal it shows. */
  lemma {:induction false} RedrawTimesGoal(r: Renderer, v: View, limit: nat, n: nat)
    requires Coherent(r, v) && RedrawTimes(r, v, limit, n).messages == v.messages
    ensures var next := RedrawTimes(r, v, limit, n);
            Coherent(r, next) && next.messages == v.messages && Goal(r, next) == Goal(r, v)
    decreases n
  {
    hide Coherent, Redraw, Goal;
    if n > 0 {
      var next := Redraw(r, v, limit);
      RedrawShrinks(r, v, limit);
      RedrawTimesShrink(r, next, limit, n - 1);
      RedrawGoal(r, v, limit);
      RedrawTimesGoal(r, next, limit, n - 1);
    }
  }

  /** After every input the two runs are heading for the same place. */
  ghost predicate InStepThroughout(r: Renderer, a: View, b: View, limit: nat, turns: seq<Turn>)
    decreases |turns|
  {
    turns == [] ||
    (InStep(r, Turned(r, a, limit, turns[0], false), Turned(r, b, limit, turns[0], true)) &&
     InStepThroughout(r, Turned(r, a, limit, turns[0], false), Turned(r, b, limit, turns[0], true), limit, turns[1..]))
  }

  /** Every input finds the two runs in states that decide it alike. */
  predicate AllAlike(r: Renderer, a: View, b: View, limit: nat, turns: seq<Turn>)
    requires a.messages == b.messages
    decreases |turns|
  {
    turns == [] ||
    (var x, y := Drawn(r, a, limit, turns[0], false), Drawn(r, b, limit, turns[0], true);
     var next, nextB := Turned(r, a, limit, turns[0], false), Turned(r, b, limit, turns[0], true);
     && x.messages == y.messages && Alike(r, x, y, turns[0].input)
     && next.messages == nextB.messages && AllAlike(r, next, nextB, limit, turns[1..]))
  }

  lemma TurnIff(r: Renderer, a: View, b: View, limit: nat, turn: Turn)
    requires InStep(r, a, b)
    requires Drawn(r, a, limit, turn, false).messages == Turned(r, a, limit, turn, false).messages == a.messages
    requires Drawn(r, b, limit, turn, true).messages == Turned(r, b, limit, turn, true).messages == b.messages
    ensures InStep(r, Turned(r, a, limit, turn, false), Turned(r, b, limit, turn, true)) <==>
            Alike(r, Drawn(r, a, limit, turn, false), Drawn(r, b, limit, turn, true), turn.input)
  {
    RedrawTimesGoal(r, a, limit, turn.first);
    RedrawTimesGoal(r, b, limit, turn.second);
    hide Coherent, Goal, Happen, RedrawTimes, Alike;
    StepIff(r, Drawn(r, a, limit, turn, false), Drawn(r, b, limit, turn, true), limit, turn.input);
  }

  /**
   * Take any two runs of the same inputs, from views in step, that differ in when they are drawn and drop no messages.
   * They are heading for the same place after every input exactly if every input finds them in states that decide it
   * alike.
   */
  lemma {:induction false} RunsStayInStepIff(r: Renderer, a: View, b: View, limit: nat, turns: seq<Turn>)
    requires InStep(r, a, b)
    requires Played(r, a, limit, turns, false).messages == a.messages
    requires Played(r, b, limit, turns, true).messages == b.messages
    ensures InStepThroughout(r, a, b, limit, turns) <==> AllAlike(r, a, b, limit, turns)
    decreases |turns|
  {
    hide InStep, Alike, Turned, Drawn;
    SameMessages(r, a, b);
    if turns != [] {
      PlayedKeeps(r, a, limit, turns, false);
      PlayedKeeps(r, b, limit, turns, true);
      TurnIff(r, a, b, limit, turns[0]);
      var next, nextB := Turned(r, a, limit, turns[0], false), Turned(r, b, limit, turns[0], true);
      if InStep(r, next, nextB) {
        RunsStayInStepIff(r, next, nextB, limit, turns[1..]);
      }
    }
  }

  lemma SameMessages(r: Renderer, a: View, b: View)
    requires InStep(r, a, b)
    ensures a.messages == b.messages && Coherent(r, a) && Coherent(r, b) && Goal(r, a) == Goal(r, b)
  {
  }

  /** Two runs that stay in step end in step. */
  lemma {:induction false} StepsEnd(r: Renderer, a: View, b: View, limit: nat, turns: seq<Turn>)
    requires InStep(r, a, b) && InStepThroughout(r, a, b, limit, turns)
    ensures InStep(r, Played(r, a, limit, turns, false), Played(r, b, limit, turns, true))
    decreases |turns|
  {
    hide InStep, Turned;
    if turns != [] {
      StepsEnd(
        r, Turned(r, a, limit, turns[0], false), Turned(r, b, limit, turns[0], true), limit, turns[1..]);
    }
  }

  /**
   * Deferral is transparent: two such runs whose inputs are decided alike show the same frame once each has been drawn
   * often enough, namely what both are heading for.
   */
  lemma DeferralIsTransparent(r: Renderer, a: View, b: View, limit: nat, turns: seq<Turn>, n: nat, k: nat)
    requires InStep(r, a, b) && AllAlike(r, a, b, limit, turns)
    requires 0 < n && Waiting(Played(r, a, limit, turns, false)) <= RENDER_PASSES * n
    requires 0 < k && Waiting(Played(r, b, limit, turns, true)) <= RENDER_PASSES * k
    requires RedrawTimes(r, Played(r, a, limit, turns, false), limit, n).messages == a.messages
    requires RedrawTimes(r, Played(r, b, limit, turns, true), limit, k).messages == b.messages
    ensures var l, goal := r(a.messages), Goal(r, Played(r, a, limit, turns, false));
            && Possible(a.messages, goal)
            && Shows(RedrawTimes(r, Played(r, a, limit, turns, false), limit, n), l, goal)
            && Shows(RedrawTimes(r, Played(r, b, limit, turns, true), limit, k), l, goal)
  {
    var x, y := Played(r, a, limit, turns, false), Played(r, b, limit, turns, true);
    hide *;
    SameMessages(r, a, b);
    EndsWhole(r, a, limit, turns, false, n);
    EndsWhole(r, b, limit, turns, true, k);
    RunsStayInStepIff(r, a, b, limit, turns);
    StepsEnd(r, a, b, limit, turns);
    SameMessages(r, x, y);
    RedrawsSettle(r, x, limit, n);
    RedrawsSettle(r, y, limit, k);
    SettledShowsGoal(r, RedrawTimes(r, x, limit, n), limit);
    SettledShowsGoal(r, RedrawTimes(r, y, limit, k), limit);
  }

  lemma EndsWhole(r: Renderer, v: View, limit: nat, turns: seq<Turn>, second: bool, n: nat)
    requires RedrawTimes(r, Played(r, v, limit, turns, second), limit, n).messages == v.messages
    ensures Played(r, v, limit, turns, second).messages == v.messages
  {
    hide *;
    PlayedShrinks(r, v, limit, turns, second);
    RedrawTimesShrink(r, Played(r, v, limit, turns, second), limit, n);
    ShrinksBack(v.messages, Played(r, v, limit, turns, second).messages, limit);
  }

  /** In particular no run drops anything while the buffer is within its limit. */
  lemma WithinLimitKeepsAll(r: Renderer, v: View, limit: nat, turns: seq<Turn>, second: bool, n: nat)
    requires limit == 0 || |v.messages| <= limit
    ensures RedrawTimes(r, Played(r, v, limit, turns, second), limit, n).messages == v.messages
  {
    PlayedShrinks(r, v, limit, turns, second);
    RedrawTimesShrink(r, Played(r, v, limit, turns, second), limit, n);
  }

  // ----- presses only -----

  lemma PressNotClamped(r: Renderer, v: View, limit: nat, direction: Direction)
    requires Coherent(r, v) && !ClampPending(r, v)
    ensures var next := Press(v, limit, direction); next.messages == v.messages ==> !ClampPending(r, next)
  {
    hide UniqueIds, IndexOf, Collapse, RunQueue, EdgesOf, RowsTell;
    forall start, queue | Inside(v.messages, start)
      ensures var next := RunSeeks(v, limit, start, queue);
              next == v || next.seek.None? || IsPending(next.seek)
    {
      RunSeeksSeek(v, limit, start, queue);
    }
  }

  lemma RunSeeksSeek(v: View, limit: nat, start: Position, queue: seq<Direction>)
    requires Inside(v.messages, start)
    ensures var next := RunSeeks(v, limit, start, queue); next == v || next.seek.None? || IsPending(next.seek)
  {
    hide RunQueue;
  }

  lemma RedrawNotClamped(r: Renderer, v: View, limit: nat)
    requires Coherent(r, v) && Redraw(r, v, limit).messages == v.messages
    ensures !ClampPending(r, Redraw(r, v, limit))
  {
    RedrawGoal(r, v, limit);
    hide Redraw, Goal, UniqueIds, IndexOf;
  }

  lemma {:induction false} RedrawTimesNotClamped(r: Renderer, v: View, limit: nat, n: nat)
    requires Coherent(r, v) && !ClampPending(r, v) && RedrawTimes(r, v, limit, n).messages == v.messages
    ensures !ClampPending(r, RedrawTimes(r, v, limit, n))
    decreases n
  {
    hide Coherent, Redraw, ClampPending, Goal;
    if n > 0 {
      var next := Redraw(r, v, limit);
      RedrawShrinks(r, v, limit);
      RedrawTimesShrink(r, next, limit, n - 1);
      RedrawGoal(r, v, limit);
      RedrawNotClamped(r, v, limit);
      RedrawTimesNotClamped(r, next, limit, n - 1);
    }
  }

  /** Runs of presses alone are always alike, so pressing n seeks before a redraw lands where n separate presses do. */
  lemma {:induction false} PressesAreAlike(r: Renderer, a: View, b: View, limit: nat, turns: seq<Turn>)
    requires InStep(r, a, b) && !ClampPending(r, a) && !ClampPending(r, b)
    requires forall turn | turn in turns :: turn.input.Pressing?
    requires Played(r, a, limit, turns, false).messages == a.messages
    requires Played(r, b, limit, turns, true).messages == b.messages
    ensures AllAlike(r, a, b, limit, turns)
    decreases |turns|
  {
    SameMessages(r, a, b);
    if turns != [] {
      PlayedKeeps(r, a, limit, turns, false);
      PlayedKeeps(r, b, limit, turns, true);
      var turn := turns[0];
      assert turn in turns && forall t | t in turns[1..] :: t in turns;
      var x, y := Drawn(r, a, limit, turn, false), Drawn(r, b, limit, turn, true);
      RedrawTimesGoal(r, a, limit, turn.first);
      RedrawTimesGoal(r, b, limit, turn.second);
      RedrawTimesNotClamped(r, a, limit, turn.first);
      RedrawTimesNotClamped(r, b, limit, turn.second);
      hide Coherent, Goal, RedrawTimes, ClampPending, Press, Pressed, PressStart, Played;
      PressNotClamped(r, x, limit, turn.input.direction);
      PressNotClamped(r, y, limit, turn.input.direction);
      TurnIff(r, a, b, limit, turn);
      PressesAreAlike(
        r, Turned(r, a, limit, turn, false), Turned(r, b, limit, turn, true), limit, turns[1..]);
    }
  }
}
