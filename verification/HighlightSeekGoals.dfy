/**
 * Where seeks lead. Each view has a goal, what it will show once its waiting seeks have been applied; presses move the
 * goal as separate presses with redraws in between would move the view, and redraws leave it alone.
 */
module HighlightSeekGoals {
  import opened Wrappers
  import opened HighlightSeeking

  // ----- the renderer -----

  /** What the chat renderer does for given messages: clamp an offset, report the edges, place a message in view. */
  datatype Layout = Layout(
    clamp: nat -> nat, top: nat -> Option<nat>, bottom: nat -> Option<nat>, place: nat -> nat)

  ghost predicate Steady(l: Layout) {
    && l.clamp(0) == 0
    && (forall o :: l.clamp(l.clamp(o)) == l.clamp(o))
    && (forall id :: l.clamp(l.place(id)) == l.place(id))
  }

  type Renderer = seq<Message> -> Layout

  function RowsAt(l: Layout, offset: nat): Rows { Rows(offset, l.top(offset), l.bottom(offset)) }

  /** The message the frame must bring into view. */
  function Target(v: View): Option<nat> {
    match CurrentSeek(v)
    case Some(Pending(id)) => if IndexOf(v.messages, id).Some? then Some(id) else None
    case _ => None
  }

  /** `render_once`: place the target or clamp the offset, keep or drop the seek, report the rows. */
  function RenderOnce(r: Renderer, v: View): View {
    var l := r(v.messages);
    match Target(v)
    case Some(id) =>
      v.(offset := l.place(id), seek := Some(Seek(l.place(id), Shown(id))), rows := Some(RowsAt(l, l.place(id))))
    case None =>
      var scroll := l.clamp(v.offset);
      var seek :=
        if v.seek.None? then None
        else if v.seek.value.state.Pending? then None
        else if v.seek.value.state.Deferred? && v.seek.value.offset == v.offset then
          Some(v.seek.value.(offset := scroll))
        else v.seek;
      v.(offset := scroll, seek := seek, rows := Some(RowsAt(l, scroll)))
  }

  /** The loop of `render`, which draws again while seeks get resolved. */
  function Passes(r: Renderer, v: View, limit: nat, n: nat): View
    decreases n
  {
    if n == 0 then v
    else
      var (next, again) := Resolve(v, limit);
      if again then Passes(r, RenderOnce(r, next), limit, n - 1) else next
  }

  const RENDER_PASSES: nat := 8

  /** One turn of the main loop: collapse if at the bottom, then `render`. */
  function Redraw(r: Renderer, v: View, limit: nat): View {
    Passes(r, RenderOnce(r, Collapse(v, limit)), limit, RENDER_PASSES)
  }

  // ----- where the seeks lead -----

  /** What the user looks at: the rows at an offset, or a highlight that was sought. */
  datatype Place = Looking(offset: nat) | On(index: nat)

  function EdgesAt(messages: seq<Message>, l: Layout, offset: nat): (p: Position)
    ensures p.Edges? && Inside(messages, p)
  {
    EdgesOf(messages, RowsAt(l, offset))
  }

  function PositionOf(messages: seq<Message>, l: Layout, place: Place): (p: Position)
    ensures if place.Looking? then p.Edges? && Inside(messages, p) else p.At?
  {
    match place case Looking(offset) => EdgesAt(messages, l, offset) case On(index) => At(index)
  }

  predicate Possible(messages: seq<Message>, place: Place) { place.On? ==> place.index < |messages| }

  /** One press, followed by a redraw: the reference meaning. */
  function Pressed(messages: seq<Message>, l: Layout, place: Place, direction: Direction): (r: Place)
    requires Possible(messages, place)
    ensures Possible(messages, r)
  {
    match SeekFrom(messages, PositionOf(messages, l, place), direction)
    case At(index) => On(index)
    case Live => Looking(0)
    case Edges(_, _) => place
  }

  function PressedAll(messages: seq<Message>, l: Layout, place: Place, queue: seq<Direction>): (r: Place)
    requires Possible(messages, place)
    ensures Possible(messages, r)
    decreases |queue|
  {
    if queue == [] then place else PressedAll(messages, l, Pressed(messages, l, place, queue[0]), queue[1..])
  }

  /** Where the view is heading: what it will show once its pending seeks have been applied. */
  function Goal(r: Renderer, v: View): (place: Place)
    ensures Possible(v.messages, place)
  {
    var l := r(v.messages);
    match CurrentSeek(v)
    case Some(Deferred(queue)) => PressedAll(v.messages, l, Looking(l.clamp(v.offset)), queue)
    case Some(Pending(id)) => OnMessage(v, l, id)
    case _ => Landing(v.messages, v.seek, l.clamp(v.offset))
  }

  /** What a view with this seek shows once it is drawn at this offset: the sought message, if it was shown there. */
  function Landing(messages: seq<Message>, seek: Option<Seek>, offset: nat): (place: Place)
    ensures Possible(messages, place)
  {
    if seek.Some? && seek.value.state.Shown? && seek.value.offset == offset then
      match IndexOf(messages, seek.value.state.id)
      case Some(index) => On(index)
      case None => Looking(offset)
    else Looking(offset)
  }

  /** Scrolled past the top, and about to be clamped back to where a sought message is shown. */
  predicate ClampPending(r: Renderer, v: View) {
    && v.seek.Some? && v.seek.value.state.Shown?
    && v.offset != v.seek.value.offset == r(v.messages).clamp(v.offset)
  }

  /** Where a press starts from: the goal, except that before the clamp it starts from the rows. */
  function PressStart(r: Renderer, v: View): (place: Place)
    ensures Possible(v.messages, place)
  {
    if ClampPending(r, v) then Looking(r(v.messages).clamp(v.offset)) else Goal(r, v)
  }

  function OnMessage(v: View, l: Layout, id: nat): (place: Place)
    ensures Possible(v.messages, place)
  {
    match IndexOf(v.messages, id) case Some(index) => On(index) case None => Looking(l.clamp(v.offset))
  }

  // ----- what every step keeps -----

  predicate UniqueIds(messages: seq<Message>) {
    forall i, j | 0 <= i < j < |messages| :: messages[i].id != messages[j].id
  }

  /** The rows are those of a frame of these messages. */
  predicate RowsTell(v: View, l: Layout) {
    v.rows.Some? ==> var offset := v.rows.value.offset; l.clamp(offset) == offset && v.rows.value == RowsAt(l, offset)
  }

  predicate SeekTells(v: View, l: Layout) {
    v.seek.Some? ==>
      match v.seek.value.state
      case Deferred(queue) => v.seek.value.offset == v.offset && queue != []
      case Pending(id) => v.seek.value.offset == v.offset && IndexOf(v.messages, id).Some?
      case Shown(id) =>
        IndexOf(v.messages, id).Some? && v.seek.value.offset == l.place(id)
  }

  ghost predicate Coherent(r: Renderer, v: View) {
    var l := r(v.messages);
    Steady(l) && UniqueIds(v.messages) && RowsTell(v, l) && SeekTells(v, l)
  }

  lemma IndexOfId(messages: seq<Message>, index: nat)
    requires UniqueIds(messages) && index < |messages|
    ensures IndexOf(messages, messages[index].id) == Some(index)
  {
  }

  /** The one step that drops messages. */
  predicate Drops(v: View, limit: nat) { v.offset == 0 && !IsPending(v.seek) && v.pinned && 0 < limit < |v.messages| }

  lemma CollapseDropsIff(v: View, limit: nat)
    ensures Collapse(v, limit).messages != v.messages <==> Drops(v, limit)
  {
  }

  lemma CollapseKeeps(v: View, limit: nat)
    requires Collapse(v, limit).messages == v.messages
    ensures Collapse(v, limit) == v.(pinned := Collapse(v, limit).pinned)
  {
  }

  lemma {:induction false} PressedAllConcat(
    messages: seq<Message>, l: Layout, place: Place, a: seq<Direction>, b: seq<Direction>)
    requires Possible(messages, place)
    ensures PressedAll(messages, l, place, a + b) == PressedAll(messages, l, PressedAll(messages, l, place, a), b)
    decreases |a|
  {
    hide Pressed;
    if a == [] {
      assert a + b == b;
    } else {
      assert (a + b)[1..] == a[1..] + b;
      PressedAllConcat(messages, l, Pressed(messages, l, place, a[0]), a[1..], b);
    }
  }

  /** Running a queue without redraws leads where separate presses lead; what is left over starts from the live view. */
  lemma {:induction false} RunQueueIsPresses(messages: seq<Message>, l: Layout, place: Place, queue: seq<Direction>)
    requires Possible(messages, place)
    ensures var (p, rest) := RunQueue(messages, PositionOf(messages, l, place), queue);
            PressedAll(messages, l, place, queue) ==
            match p
            case At(index) => On(index)
            case Live => PressedAll(messages, l, Looking(0), rest)
            case Edges(_, _) => place
    decreases |queue|
  {
    hide SeekFrom, EdgesAt;
    if queue != [] {
      var p := PositionOf(messages, l, place);
      var next := SeekFrom(messages, p, queue[0]);
      assert RunQueue(messages, p, queue) == RunQueue(messages, next, queue[1..]);
      if next.Live? {
        assert RunQueue(messages, next, queue[1..]) == (Live, queue[1..]);
        assert Pressed(messages, l, place, queue[0]) == Looking(0);
        assert PressedAll(messages, l, place, queue) == PressedAll(messages, l, Looking(0), queue[1..]);
      } else {
        assert PositionOf(messages, l, Pressed(messages, l, place, queue[0])) == next;
        RunQueueIsPresses(messages, l, Pressed(messages, l, place, queue[0]), queue[1..]);
        assert PressedAll(messages, l, place, queue) ==
               PressedAll(messages, l, Pressed(messages, l, place, queue[0]), queue[1..]);
      }
    }
  }

  /**
   * The laws of the queue loop: parts run in turn, and reaching the live end leaves the rest of the queue as it was.
   */
  lemma {:induction false} RunQueueConcat(messages: seq<Message>, p: Position, a: seq<Direction>, b: seq<Direction>)
    requires Inside(messages, p)
    ensures var (mid, rest) := RunQueue(messages, p, a);
            && (exists n: nat | n <= |a| :: rest == a[n..])
            && RunQueue(messages, p, a + b) == if mid.Live? then (Live, rest + b) else RunQueue(messages, mid, b)
    decreases |a|
  {
    hide SeekFrom;
    var (mid, rest) := RunQueue(messages, p, a);
    if a == [] {
      assert a + b == b;
      assert rest == a[0..];
    } else if p.Live? {
      assert rest == a[0..];
    } else {
      var next := SeekFrom(messages, p, a[0]);
      assert (a + b)[1..] == a[1..] + b;
      RunQueueConcat(messages, next, a[1..], b);
      var n: nat :| n <= |a[1..]| && rest == a[1..][n..];
      assert rest == a[n + 1..];
    }
  }

  // ----- each step and the goal -----

  /** `run_seeks` moves on as the presses would: from a place the view is at, to where they lead. */
  lemma RunSeeksGoal(r: Renderer, v: View, limit: nat, place: Place, queue: seq<Direction>)
    requires Coherent(r, v) && Possible(v.messages, place) && queue != [] && StandsAt(v, place)
    requires RunSeeks(v, limit, PositionOf(v.messages, r(v.messages), place), queue).messages == v.messages
    ensures var next := RunSeeks(v, limit, PositionOf(v.messages, r(v.messages), place), queue);
            && Coherent(r, next) && next.messages == v.messages && next.rows == v.rows
            && (IsDeferred(next.seek) ==> |next.seek.value.state.queue| < |queue|)
            && Goal(r, next) == PressedAll(v.messages, r(v.messages), place, queue)
  {
    var m, l := v.messages, r(v.messages);
    RunQueueIsPresses(m, l, place, queue);
    hide RunQueue, EdgesAt, PressedAll, UniqueIds, IndexOf, RowsTell;
    var (p, rest) := RunQueue(m, PositionOf(m, l, place), queue);
    match p
    case At(index) =>
      IndexOfId(m, index);
      RowsTellAlike(v, v.(pinned := true, seek := Some(Seek(v.offset, Pending(m[index].id)))), l);
    case Live => BackToLive(r, v, limit, rest);
    case Edges(_, _) => EdgesRemain(r, v, place);
  }

  predicate StandsAt(v: View, place: Place) {
    match place
    case Looking(offset) => offset == v.offset && RowsCurrent(v) && (CurrentSeek(v).None? || IsDeferred(v.seek))
    case On(index) => !IsDeferred(v.seek)
  }

  lemma BackToLive(r: Renderer, v: View, limit: nat, rest: seq<Direction>)
    requires Coherent(r, v) && Collapse(v.(seek := None, offset := 0), limit).messages == v.messages
    ensures var live := Collapse(v.(seek := None, offset := 0), limit);
            var next := if rest == [] then live else Defer(live, rest);
            && Coherent(r, next) && next.messages == v.messages && next.rows == v.rows
            && Goal(r, next) == PressedAll(v.messages, r(v.messages), Looking(0), rest)
  {
    hide PressedAll, UniqueIds, IndexOf, RowsTell;
    CollapseKeeps(v.(seek := None, offset := 0), limit);
    var l := r(v.messages);
    if rest == [] {
      PressedNone(v.messages, l, Looking(0));
    }
    RowsTellAlike(v, Collapse(v.(seek := None, offset := 0), limit), l);
  }

  lemma EdgesRemain(r: Renderer, v: View, place: Place)
    requires Coherent(r, v) && StandsAt(v, place) && place.Looking?
    ensures var next := if IsDeferred(v.seek) then v.(seek := None) else v;
            Coherent(r, next) && Goal(r, next) == place
  {
    hide PressedAll, UniqueIds, IndexOf;
  }

  lemma PressedNone(messages: seq<Message>, l: Layout, place: Place)
    requires Possible(messages, place)
    ensures PressedAll(messages, l, place, []) == place
  {
  }

  lemma RowsTellAlike(v: View, next: View, l: Layout)
    requires RowsTell(v, l) && next.rows == v.rows
    ensures RowsTell(next, l) && forall seek :: RowsTell(next.(seek := seek), l)
  {
  }

  // ----- messages are only ever dropped -----

  /** `next` has the newest of these messages, and all of them if they are within the limit. */
  predicate Shrinks(messages: seq<Message>, next: seq<Message>, limit: nat) {
    && |next| <= |messages| && next == messages[|messages| - |next|..]
    && (limit == 0 || |messages| <= limit ==> next == messages)
  }

  lemma ShrinksTwice(a: seq<Message>, b: seq<Message>, c: seq<Message>, limit: nat)
    requires Shrinks(a, b, limit) && Shrinks(b, c, limit)
    ensures Shrinks(a, c, limit)
  {
  }

  lemma ShrinksBack(a: seq<Message>, b: seq<Message>, limit: nat)
    requires Shrinks(a, b, limit) && Shrinks(b, a, limit)
    ensures a == b
  {
  }

  lemma CollapseShrinks(v: View, limit: nat)
    ensures Shrinks(v.messages, Collapse(v, limit).messages, limit)
  {
  }

  lemma RunSeeksShrinks(v: View, limit: nat, start: Position, queue: seq<Direction>)
    requires Inside(v.messages, start)
    ensures Shrinks(v.messages, RunSeeks(v, limit, start, queue).messages, limit)
  {
    hide RunQueue, Collapse;
    CollapseShrinks(v.(seek := None, offset := 0), limit);
  }

  lemma PressShrinks(v: View, limit: nat, direction: Direction)
    ensures Shrinks(v.messages, Press(v, limit, direction).messages, limit)
  {
    hide RunSeeks, EdgesOf, IndexOf;
    forall start | Inside(v.messages, start)
      ensures Shrinks(v.messages, RunSeeks(v, limit, start, [direction]).messages, limit)
    {
      RunSeeksShrinks(v, limit, start, [direction]);
    }
  }

  lemma ResolveShrinks(v: View, limit: nat)
    ensures Shrinks(v.messages, Resolve(v, limit).0.messages, limit)
  {
    hide RunSeeks, EdgesOf;
    if IsDeferred(v.seek) && RowsCurrent(v) {
      RunSeeksShrinks(v, limit, EdgesOf(v.messages, v.rows.value), v.seek.value.state.queue);
    }
  }

  lemma {:induction false} PassesShrink(r: Renderer, v: View, limit: nat, n: nat)
    ensures Shrinks(v.messages, Passes(r, v, limit, n).messages, limit)
    decreases n
  {
    hide Resolve;
    if n > 0 {
      ResolveShrinks(v, limit);
      var next := RenderOnce(r, Resolve(v, limit).0);
      PassesShrink(r, next, limit, n - 1);
      ShrinksTwice(v.messages, next.messages, Passes(r, next, limit, n - 1).messages, limit);
    }
  }

  lemma RedrawShrinks(r: Renderer, v: View, limit: nat)
    ensures Shrinks(v.messages, Redraw(r, v, limit).messages, limit)
  {
    hide Collapse, Passes;
    CollapseShrinks(v, limit);
    var drawn := RenderOnce(r, Collapse(v, limit));
    PassesShrink(r, drawn, limit, RENDER_PASSES);
    ShrinksTwice(v.messages, drawn.messages, Redraw(r, v, limit).messages, limit);
  }

  // ----- presses -----

  lemma DeferGoal(r: Renderer, v: View, queue: seq<Direction>, direction: Direction, start: Place)
    requires Coherent(r, v) && Possible(v.messages, start)
    requires start == PressedAll(v.messages, r(v.messages), Looking(r(v.messages).clamp(v.offset)), queue)
    ensures var next := Defer(v, queue + [direction]);
            Coherent(r, next) && Goal(r, next) == Pressed(v.messages, r(v.messages), start, direction)
  {
    hide UniqueIds, IndexOf, Pressed;
    var l := r(v.messages);
    PressedAllConcat(v.messages, l, Looking(l.clamp(v.offset)), queue, [direction]);
    PressedOnce(v.messages, l, start, direction);
    RowsTellAlike(v, v, l);
  }

  lemma PressedOnce(messages: seq<Message>, l: Layout, place: Place, direction: Direction)
    requires Possible(messages, place)
    ensures PressedAll(messages, l, place, [direction]) == Pressed(messages, l, place, direction)
  {
    hide Pressed;
    assert [direction][1..] == [];
  }

  /** A press, at whatever moment: the goal moves as one press followed by a redraw would move the view. */
  lemma PressGoal(r: Renderer, v: View, limit: nat, direction: Direction)
    requires Coherent(r, v) && Press(v, limit, direction).messages == v.messages
    ensures var next := Press(v, limit, direction);
            && Coherent(r, next) && next.messages == v.messages
            && Goal(r, next) == Pressed(v.messages, r(v.messages), PressStart(r, v), direction)
  {
    hide RunSeeks, Pressed, UniqueIds, IndexOf;
    var m, l := v.messages, r(v.messages);
    PressedOnce(m, l, PressStart(r, v), direction);
    match CurrentSeek(v)
    case Some(Deferred(queue)) => DeferGoal(r, v, queue, direction, PressStart(r, v));
    case Some(Pending(id)) => RunSeeksGoal(r, v, limit, On(IndexOf(m, id).value), [direction]);
    case Some(Shown(id)) => RunSeeksGoal(r, v, limit, On(IndexOf(m, id).value), [direction]);
    case None =>
      if RowsCurrent(v) {
        assert v.rows.value == RowsAt(l, v.offset) && PressStart(r, v) == Looking(v.offset);
        assert PositionOf(m, l, Looking(v.offset)) == EdgesOf(m, v.rows.value);
        RunSeeksGoal(r, v, limit, Looking(v.offset), [direction]);
      } else {
        PressedNone(m, l, Looking(l.clamp(v.offset)));
        var none: seq<Direction> := [];
        assert none + [direction] == [direction];
        DeferGoal(r, v, none, direction, PressStart(r, v));
      }
  }

  // ----- redraws -----

  predicate Settled(v: View) { !IsPending(v.seek) && RowsCurrent(v) }

  function Waiting(v: View): nat { if IsDeferred(v.seek) then |v.seek.value.state.queue| else 0 }

  /** Drawing makes no difference to the goal; what is left to do afterwards is at most a queue of seeks. */
  lemma RenderGoal(r: Renderer, v: View)
    requires Coherent(r, v)
    ensures var next := RenderOnce(r, v);
            && Coherent(r, next) && next.messages == v.messages && Goal(r, next) == Goal(r, v)
            && RowsCurrent(next) && Waiting(next) == Waiting(v) && (IsPending(next.seek) ==> IsDeferred(next.seek))
  {
    hide PressedAll, UniqueIds, IndexOf;
  }

  /** So does resolving against rows just drawn; when it asks for no further drawing the view is settled. */
  lemma ResolveGoal(r: Renderer, v: View, limit: nat)
    requires Coherent(r, v) && RowsCurrent(v) && (IsPending(v.seek) ==> IsDeferred(v.seek))
    requires Resolve(v, limit).0.messages == v.messages
    ensures var (next, again) := Resolve(v, limit);
            && Coherent(r, next) && next.messages == v.messages && Goal(r, next) == Goal(r, v)
            && (if again then Waiting(next) < Waiting(v) else Settled(next))
  {
    hide RunSeeks, PressedAll, UniqueIds, IndexOf;
    if IsDeferred(v.seek) {
      RunSeeksGoal(r, v, limit, Looking(v.offset), v.seek.value.state.queue);
    }
  }

  /** Just drawn, with this goal. */
  ghost predicate Drawn(r: Renderer, v: View, messages: seq<Message>, goal: Place) {
    && Coherent(r, v) && v.messages == messages && Goal(r, v) == goal
    && RowsCurrent(v) && (IsPending(v.seek) ==> IsDeferred(v.seek))
  }

  lemma PassGoal(r: Renderer, v: View, limit: nat, messages: seq<Message>, goal: Place)
    requires Drawn(r, v, messages, goal) && Resolve(v, limit).0.messages == messages
    ensures var (next, again) := Resolve(v, limit);
            if again then Drawn(r, RenderOnce(r, next), messages, goal) && Waiting(RenderOnce(r, next)) < Waiting(v)
            else Drawn(r, next, messages, goal) && Settled(next)
  {
    ResolveGoal(r, v, limit);
    hide Coherent, Goal, RenderOnce, Resolve;
    RenderGoal(r, Resolve(v, limit).0);
  }

  lemma {:induction false} PassesGoal(r: Renderer, v: View, limit: nat, n: nat, messages: seq<Message>, goal: Place)
    requires Drawn(r, v, messages, goal) && Passes(r, v, limit, n).messages == messages
    ensures Settled(v) || 0 < Waiting(v)
    ensures var next := Passes(r, v, limit, n);
            Drawn(r, next, messages, goal) && (Settled(next) || 0 < Waiting(next) <= Waiting(v) - n)
    decreases n
  {
    if n == 0 {
      SettledOrWaiting(r, v, messages, goal);
    } else {
      hide Drawn, Settled, Waiting, Resolve, RenderOnce, Passes;
      DrawnMessages(r, v, messages, goal);
      PassKeeps(r, v, limit, n);
      SettledOrWaiting(r, v, messages, goal);
      PassGoal(r, v, limit, messages, goal);
      PassesStep(r, v, limit, n);
      if Resolve(v, limit).1 {
        PassesGoal(r, RenderOnce(r, Resolve(v, limit).0), limit, n - 1, messages, goal);
      }
    }
  }

  lemma PassesStep(r: Renderer, v: View, limit: nat, n: nat)
    requires n > 0
    ensures var (next, again) := Resolve(v, limit);
            Passes(r, v, limit, n) == if again then Passes(r, RenderOnce(r, next), limit, n - 1) else next
  {
    hide Resolve, RenderOnce;
  }

  lemma SettledOrWaiting(r: Renderer, v: View, messages: seq<Message>, goal: Place)
    requires Drawn(r, v, messages, goal)
    ensures Settled(v) || 0 < Waiting(v)
  {
    hide Goal, UniqueIds, RowsTell;
  }

  /** If the passes keep the messages, so does the first of them. */
  lemma PassKeeps(r: Renderer, v: View, limit: nat, n: nat)
    requires n > 0 && Passes(r, v, limit, n).messages == v.messages
    ensures Resolve(v, limit).0.messages == v.messages
  {
    hide *;
    PassesStep(r, v, limit, n);
    var (next, again) := Resolve(v, limit);
    if again {
      ResolveShrinks(v, limit);
      RenderKeeps(r, next);
      PassesShrink(r, RenderOnce(r, next), limit, n - 1);
      ShrinksBack(v.messages, next.messages, limit);
    }
  }

  lemma RenderKeeps(r: Renderer, v: View)
    ensures RenderOnce(r, v).messages == v.messages
  {
    hide Target;
  }

  lemma DrawnMessages(r: Renderer, v: View, messages: seq<Message>, goal: Place)
    requires Drawn(r, v, messages, goal)
    ensures v.messages == messages
  {
    hide Coherent, Goal;
  }

  lemma CollapseGoal(r: Renderer, v: View, limit: nat)
    requires Coherent(r, v) && Collapse(v, limit).messages == v.messages
    ensures var next := Collapse(v, limit);
            && Coherent(r, next) && next.messages == v.messages && Goal(r, next) == Goal(r, v)
            && Waiting(next) == Waiting(v)
  {
    hide PressedAll, UniqueIds, IndexOf;
    CollapseKeeps(v, limit);
  }

  /**
   * A redraw that drops no messages makes no difference to the goal, and works off eight of the seeks that wait, or
   * all of them.
   */
  lemma RedrawGoal(r: Renderer, v: View, limit: nat)
    requires Coherent(r, v) && Redraw(r, v, limit).messages == v.messages
    ensures var next := Redraw(r, v, limit);
            && Coherent(r, next) && next.messages == v.messages && Goal(r, next) == Goal(r, v)
            && (Settled(next) || 0 < Waiting(next) <= Waiting(v) - RENDER_PASSES)
  {
    hide Coherent, Goal, Collapse, RowsCurrent, Passes;
    CollapseShrinks(v, limit);
    PassesShrink(r, RenderOnce(r, Collapse(v, limit)), limit, RENDER_PASSES);
    CollapseGoal(r, v, limit);
    hide RenderOnce;
    RenderGoal(r, Collapse(v, limit));
    PassesGoal(r, RenderOnce(r, Collapse(v, limit)), limit, RENDER_PASSES, v.messages, Goal(r, v));
  }

  // ----- what is seen -----

  /** The frame a place is shown in. */
  predicate Shows(v: View, l: Layout, place: Place)
    requires Possible(v.messages, place)
  {
    var offset := match place case Looking(o) => o case On(index) => l.place(v.messages[index].id);
    && v.offset == offset && v.rows == Some(RowsAt(l, offset))
    && CurrentSeek(v) == match place case Looking(_) => None case On(index) => Some(Shown(v.messages[index].id))
  }

  lemma SettledShowsGoal(r: Renderer, v: View, limit: nat)
    requires Coherent(r, v) && Settled(v)
    ensures Shows(v, r(v.messages), Goal(r, v))
  {
    hide PressedAll, UniqueIds, IndexOf;
  }

  function RedrawTimes(r: Renderer, v: View, limit: nat, n: nat): View
    decreases n
  {
    if n == 0 then v else RedrawTimes(r, Redraw(r, v, limit), limit, n - 1)
  }

  lemma {:induction false} RedrawTimesShrink(r: Renderer, v: View, limit: nat, n: nat)
    ensures Shrinks(v.messages, RedrawTimes(r, v, limit, n).messages, limit)
    decreases n
  {
    hide Redraw;
    if n > 0 {
      var next := Redraw(r, v, limit);
      RedrawShrinks(r, v, limit);
      RedrawTimesShrink(r, next, limit, n - 1);
      ShrinksTwice(v.messages, next.messages, RedrawTimes(r, v, limit, n).messages, limit);
    }
  }

  lemma {:induction false} RedrawsSettle(r: Renderer, v: View, limit: nat, n: nat)
    requires Coherent(r, v) && Waiting(v) <= RENDER_PASSES * n && n > 0
    requires RedrawTimes(r, v, limit, n).messages == v.messages
    ensures var next := RedrawTimes(r, v, limit, n);
            Coherent(r, next) && next.messages == v.messages && Goal(r, next) == Goal(r, v) && Settled(next)
    decreases n
  {
    hide Coherent, Redraw, Goal;
    var next := Redraw(r, v, limit);
    RedrawShrinks(r, v, limit);
    RedrawTimesShrink(r, next, limit, n - 1);
    RedrawGoal(r, v, limit);
    if n > 1 {
      RedrawsSettle(r, next, limit, n - 1);
    }
  }
}
