/** Where the transparency of deferral ends: the conditions of module HighlightSeekRuns are needed. */
module HighlightSeekLimits {
  import opened Wrappers
  import opened HighlightSeeking
  import opened HighlightSeekGoals
  import opened HighlightSeekRuns

  // ----- skipped redraws -----

  /** The offset a place is shown at. */
  function OffsetOf(messages: seq<Message>, l: Layout, place: Place): nat
    requires Possible(messages, place)
  {
    match place case Looking(offset) => offset case On(index) => l.place(messages[index].id)
  }

  /** A seek that is shown is shown where the view is. */
  predicate Fresh(v: View) { v.seek.Some? && v.seek.value.state.Shown? ==> v.seek.value.offset == v.offset }

  /** Without a seek that waits, drawing keeps the seek. */
  lemma {:induction false} QuietRedraws(r: Renderer, v: View, limit: nat, n: nat)
    requires !IsPending(v.seek)
    ensures RedrawTimes(r, v, limit, n).seek == v.seek
    decreases n
  {
    if n > 0 {
      QuietRedraw(r, v, limit);
      hide Redraw;
      QuietRedraws(r, Redraw(r, v, limit), limit, n - 1);
    }
  }

  lemma QuietRedraw(r: Renderer, v: View, limit: nat)
    requires !IsPending(v.seek)
    ensures Redraw(r, v, limit).seek == v.seek
  {
    var drawn := RenderOnce(r, Collapse(v, limit));
    assert drawn.seek == v.seek;
    hide RenderOnce;
    assert Passes(r, drawn, limit, RENDER_PASSES) == drawn;
  }

  lemma RenderFresh(r: Renderer, v: View)
    requires Coherent(r, v) && Fresh(v)
    ensures Fresh(RenderOnce(r, v))
  {
    hide UniqueIds, RowsTell;
  }

  lemma ResolveFresh(v: View, limit: nat)
    requires Fresh(v)
    ensures Fresh(Resolve(v, limit).0)
  {
    hide RunQueue, EdgesOf;
  }

  lemma {:induction false} PassesFresh(r: Renderer, v: View, limit: nat, n: nat, messages: seq<Message>, goal: Place)
    requires HighlightSeekGoals.Drawn(r, v, messages, goal) && Fresh(v) && Passes(r, v, limit, n).messages == messages
    ensures Fresh(Passes(r, v, limit, n))
    decreases n
  {
    hide *;
    DrawnMessages(r, v, messages, goal);
    if n == 0 {
      assert Passes(r, v, limit, 0) == v by {
        NoPasses(r, v, limit);
      }
    } else {
      PassKeeps(r, v, limit, n);
      PassGoal(r, v, limit, messages, goal);
      PassesStep(r, v, limit, n);
      ResolveFresh(v, limit);
      var (next, again) := Resolve(v, limit);
      if again {
        ResolvedCoherent(r, v, limit, messages, goal);
        RenderFresh(r, next);
        PassesFresh(r, RenderOnce(r, next), limit, n - 1, messages, goal);
      }
    }
  }

  lemma NoPasses(r: Renderer, v: View, limit: nat)
    ensures Passes(r, v, limit, 0) == v
  {
  }

  lemma ResolvedCoherent(r: Renderer, v: View, limit: nat, messages: seq<Message>, goal: Place)
    requires HighlightSeekGoals.Drawn(r, v, messages, goal) && Resolve(v, limit).0.messages == messages
    ensures Coherent(r, Resolve(v, limit).0)
  {
    ResolveGoal(r, v, limit);
  }

  lemma RedrawFresh(r: Renderer, v: View, limit: nat)
    requires Coherent(r, v) && Fresh(v) && Redraw(r, v, limit).messages == v.messages
    ensures Fresh(Redraw(r, v, limit))
  {
    hide *;
    RedrawParts(r, v, limit);
    var drawn := RenderOnce(r, Collapse(v, limit));
    FirstFrame(r, v, limit);
    CollapseFresh(v, limit);
    RenderFresh(r, Collapse(v, limit));
    PassesFresh(r, drawn, limit, RENDER_PASSES, v.messages, Goal(r, v));
  }

  lemma RedrawParts(r: Renderer, v: View, limit: nat)
    ensures Redraw(r, v, limit) == Passes(r, RenderOnce(r, Collapse(v, limit)), limit, RENDER_PASSES)
  {
    hide Passes, RenderOnce, Collapse;
  }

  lemma CollapseFresh(v: View, limit: nat)
    requires Fresh(v)
    ensures Fresh(Collapse(v, limit))
  {
  }

  /** The first frame of a redraw that drops nothing. */
  lemma FirstFrame(r: Renderer, v: View, limit: nat)
    requires Coherent(r, v) && Redraw(r, v, limit).messages == v.messages
    ensures Coherent(r, Collapse(v, limit)) && Collapse(v, limit) == v.(pinned := Collapse(v, limit).pinned)
    ensures var drawn := RenderOnce(r, Collapse(v, limit));
            && HighlightSeekGoals.Drawn(r, drawn, v.messages, Goal(r, v))
            && Passes(r, drawn, limit, RENDER_PASSES).messages == v.messages
            && Waiting(drawn) == Waiting(v)
  {
    hide Coherent, Goal, Collapse, RowsCurrent, Passes;
    CollapseShrinks(v, limit);
    PassesShrink(r, RenderOnce(r, Collapse(v, limit)), limit, RENDER_PASSES);
    CollapseKeeps(v, limit);
    CollapseGoal(r, v, limit);
    hide RenderOnce;
    RenderGoal(r, Collapse(v, limit));
  }

  lemma {:induction false} RedrawsFresh(r: Renderer, v: View, limit: nat, n: nat)
    requires Coherent(r, v) && Fresh(v) && RedrawTimes(r, v, limit, n).messages == v.messages
    ensures Fresh(RedrawTimes(r, v, limit, n))
    decreases n
  {
    hide Coherent, Redraw, Goal, Fresh;
    if n > 0 {
      var next := Redraw(r, v, limit);
      RedrawShrinks(r, v, limit);
      RedrawTimesShrink(r, next, limit, n - 1);
      RedrawGoal(r, v, limit);
      RedrawFresh(r, v, limit);
      RedrawsFresh(r, next, limit, n - 1);
    }
  }

  /**
   * The condition under which a view may be moved before it is drawn. Counting from where the view was last put and
   * from where its goal is shown must reach the same offset; and where seeks wait that lead to a message, that must
   * not be the offset the message is shown at, for the motion drops those seeks.
   */
  predicate DrawsIdly(r: Renderer, v: View, motion: Motion) {
    var l, goal := r(v.messages), Goal(r, v);
    var seen := OffsetOf(v.messages, l, goal);
    && Reached(r, v, motion) == l.clamp(Moved(motion, seen))
    && (IsPending(v.seek) && goal.On? ==> Reached(r, v, motion) != seen)
  }

  /**
   * Exactly when it makes a difference whether a view is drawn before it is moved: for every view, drawn until all its
   * seeks are applied, and every motion, as long as no messages are dropped.
   */
  lemma SkippedRedrawsIff(r: Renderer, v: View, limit: nat, n: nat, motion: Motion, bound: bool)
    requires Coherent(r, v) && 0 < n && Waiting(v) <= RENDER_PASSES * n
    requires RedrawTimes(r, v, limit, n).messages == v.messages
    requires Happen(v, limit, Moving(motion, bound)).messages == v.messages
    requires Happen(RedrawTimes(r, v, limit, n), limit, Moving(motion, bound)).messages == v.messages
    ensures InStep(r, Happen(v, limit, Moving(motion, bound)),
                   Happen(RedrawTimes(r, v, limit, n), limit, Moving(motion, bound))) <==>
            DrawsIdly(r, v, motion)
  {
    var d := RedrawTimes(r, v, limit, n);
    hide Coherent, Goal, Happen, RedrawTimes, Moved;
    RedrawsSettle(r, v, limit, n);
    SettledShowsGoal(r, d, limit);
    StepIff(r, v, d, limit, Moving(motion, bound));
    if IsPending(v.seek) {
      RedrawsFresh(r, v, limit, n);
    } else {
      QuietRedraws(r, v, limit, n);
    }
  }

  /**
   * Without seeks that wait, and where the clamp cuts at a greatest offset, there is one such case: coming down some
   * but not all of the way right after scrolling past the top.
   */
  lemma QuietMotionIff(r: Renderer, v: View, motion: Motion, top: nat)
    requires Coherent(r, v) && !IsPending(v.seek)
    requires forall o: nat :: r(v.messages).clamp(o) == if o <= top then o else top
    ensures DrawsIdly(r, v, motion) <==> !(motion.Down? && 0 < motion.lines < v.offset && 0 < top < v.offset)
  {
    hide UniqueIds, RowsTell;
    var l := r(v.messages);
    assert OffsetOf(v.messages, l, Goal(r, v)) == l.clamp(v.offset);
  }

  // ----- how many passes a frame needs -----

  function Queue(v: View): seq<Direction> { if IsDeferred(v.seek) then v.seek.value.state.queue else [] }

  /** How often deferred seeks have to be resolved: each return to the live end leaves the rest to another pass. */
  function Laps(messages: seq<Message>, l: Layout, offset: nat, queue: seq<Direction>): nat
    decreases |queue|
  {
    if queue == [] then 0
    else
      var (p, rest) := RunQueue(messages, EdgesAt(messages, l, offset), queue);
      1 + if p.Live? then Laps(messages, l, 0, rest) else 0
  }

  /** One pass: it settles the view, or leaves what remains of the queue to the live end. */
  lemma PassLaps(r: Renderer, v: View, limit: nat, messages: seq<Message>, goal: Place)
    requires HighlightSeekGoals.Drawn(r, v, messages, goal) && IsDeferred(v.seek)
    requires Resolve(v, limit).0.messages == messages
    ensures var (p, rest) := RunQueue(messages, EdgesAt(messages, r(messages), v.offset), Queue(v));
            var (next, again) := Resolve(v, limit);
            if again then
              Queue(RenderOnce(r, next)) == (if p.Live? then rest else []) &&
              (p.Live? ==> RenderOnce(r, next).offset == 0)
            else p.Live? ==> rest == []
  {
    hide RunQueue, UniqueIds, Goal, IndexOf;
    CollapseKeepsMost(v.(seek := None, offset := 0), limit);
    hide Collapse;
  }

  lemma CollapseKeepsMost(v: View, limit: nat)
    ensures var next := Collapse(v, limit); next.offset == v.offset && next.seek == v.seek && next.rows == v.rows
  {
  }

  lemma {:induction false} PassesSettleIff(
    r: Renderer, v: View, limit: nat, n: nat, messages: seq<Message>, goal: Place)
    requires HighlightSeekGoals.Drawn(r, v, messages, goal) && Passes(r, v, limit, n).messages == messages
    ensures Settled(Passes(r, v, limit, n)) <==> Laps(messages, r(messages), v.offset, Queue(v)) <= n
    decreases n
  {
    hide *;
    DrawnMessages(r, v, messages, goal);
    if n == 0 {
      NoPasses(r, v, limit);
      SettledIff(r, v, messages, goal);
      LapsStep(messages, r(messages), v.offset, Queue(v));
    } else {
      PassKeeps(r, v, limit, n);
      PassGoal(r, v, limit, messages, goal);
      PassesStep(r, v, limit, n);
      SettledIff(r, v, messages, goal);
      LapsStep(messages, r(messages), v.offset, Queue(v));
      var (next, again) := Resolve(v, limit);
      if IsDeferred(v.seek) {
        PassLaps(r, v, limit, messages, goal);
        if again {
          PassesSettleIff(r, RenderOnce(r, next), limit, n - 1, messages, goal);
          LapsOfNothing(messages, r(messages), RenderOnce(r, next).offset);
        } else {
          LapsOfNothing(messages, r(messages), 0);
        }
      } else {
        NotDeferred(v, limit);
      }
    }
  }

  lemma NotDeferred(v: View, limit: nat)
    requires !IsDeferred(v.seek)
    ensures Resolve(v, limit) == (v, false) && Queue(v) == []
  {
  }

  lemma SettledIff(r: Renderer, v: View, messages: seq<Message>, goal: Place)
    requires HighlightSeekGoals.Drawn(r, v, messages, goal)
    ensures Settled(v) <==> !IsDeferred(v.seek)
    ensures IsDeferred(v.seek) <==> Queue(v) != []
  {
    hide Goal, UniqueIds, RowsTell;
  }

  lemma LapsStep(messages: seq<Message>, l: Layout, offset: nat, queue: seq<Direction>)
    ensures Laps(messages, l, offset, queue) ==
            if queue == [] then 0
            else
              var (p, rest) := RunQueue(messages, EdgesAt(messages, l, offset), queue);
              if p.Live? then 1 + Laps(messages, l, 0, rest) else 1
  {
    hide RunQueue;
  }

  lemma LapsOfNothing(messages: seq<Message>, l: Layout, offset: nat)
    ensures Laps(messages, l, offset, []) == 0
  {
  }

  /** Exactly when one frame is enough: the waiting seeks return to the live end fewer times than the passes it has. */
  lemma FrameSettlesIff(r: Renderer, v: View, limit: nat)
    requires Coherent(r, v) && Redraw(r, v, limit).messages == v.messages
    ensures Settled(Redraw(r, v, limit)) <==>
            Laps(v.messages, r(v.messages), r(v.messages).clamp(v.offset), Queue(v)) <= RENDER_PASSES
  {
    hide *;
    RedrawParts(r, v, limit);
    FirstFrame(r, v, limit);
    var drawn := RenderOnce(r, Collapse(v, limit));
    PassesSettleIff(r, drawn, limit, RENDER_PASSES, v.messages, Goal(r, v));
    FirstQueue(r, v, Collapse(v, limit));
    LapsOfNothing(v.messages, r(v.messages), drawn.offset);
    LapsOfNothing(v.messages, r(v.messages), r(v.messages).clamp(v.offset));
  }

  lemma FirstQueue(r: Renderer, v: View, collapsed: View)
    requires Coherent(r, v) && collapsed == v.(pinned := collapsed.pinned)
    ensures var drawn := RenderOnce(r, collapsed);
            Queue(drawn) == Queue(v) && (Queue(v) != [] ==> drawn.offset == r(v.messages).clamp(v.offset))
  {
    hide UniqueIds, RowsTell;
  }

  /** No highlight is below the rows at this offset. */
  predicate NothingBelow(messages: seq<Message>, l: Layout, offset: nat) {
    var bottom := IndexOfRow(messages, l.bottom(offset));
    bottom.Some? && Nearest(messages, Next, bottom).None?
  }

  /** Each `Next` that waits where no highlight follows takes a pass of its own. */
  lemma {:induction false} LapsOfNexts(messages: seq<Message>, l: Layout, offset: nat, queue: seq<Direction>)
    requires (forall d | d in queue :: d == Next)
    requires NothingBelow(messages, l, offset) && NothingBelow(messages, l, 0)
    ensures Laps(messages, l, offset, queue) == |queue|
    decreases |queue|
  {
    LapsStep(messages, l, offset, queue);
    if queue != [] {
      assert queue[0] in queue && forall d | d in queue[1..] :: d in queue;
      FirstNext(messages, l, offset, queue);
      hide Laps, NothingBelow, RunQueue, EdgesAt;
      LapsOfNexts(messages, l, 0, queue[1..]);
    }
  }

  lemma LeadsLive(messages: seq<Message>, l: Layout, offset: nat)
    requires NothingBelow(messages, l, offset)
    ensures SeekFrom(messages, EdgesAt(messages, l, offset), Next) == Live
  {
    hide Nearest, IndexOfRow;
  }

  lemma {:induction false} PassesLeave(
    r: Renderer, v: View, limit: nat, n: nat, messages: seq<Message>, goal: Place)
    requires HighlightSeekGoals.Drawn(r, v, messages, goal) && Passes(r, v, limit, n).messages == messages
    requires n < |Queue(v)| && forall d | d in Queue(v) :: d == Next
    requires NothingBelow(messages, r(messages), v.offset) && NothingBelow(messages, r(messages), 0)
    ensures var next := Passes(r, v, limit, n);
            Queue(next) == Queue(v)[n..] && next.offset == if n == 0 then v.offset else 0
    decreases n
  {
    hide *;
    DrawnMessages(r, v, messages, goal);
    if n == 0 {
      NoPasses(r, v, limit);
    } else {
      PassKeeps(r, v, limit, n);
      PassGoal(r, v, limit, messages, goal);
      PassesStep(r, v, limit, n);
      SettledIff(r, v, messages, goal);
      PassLaps(r, v, limit, messages, goal);
      assert Queue(v)[0] in Queue(v);
      FirstNext(messages, r(messages), v.offset, Queue(v));
      var next := RenderOnce(r, Resolve(v, limit).0);
      assert forall d | d in Queue(v)[1..] :: d in Queue(v);
      PassesLeave(r, next, limit, n - 1, messages, goal);
      assert Queue(v)[1..][n - 1..] == Queue(v)[n..];
    }
  }

  lemma FirstNext(messages: seq<Message>, l: Layout, offset: nat, queue: seq<Direction>)
    requires queue != [] && queue[0] == Next && NothingBelow(messages, l, offset)
    ensures RunQueue(messages, EdgesAt(messages, l, offset), queue) == (Live, queue[1..])
  {
    LeadsLive(messages, l, offset);
    hide NothingBelow, SeekFrom, EdgesAt;
    assert RunQueue(messages, EdgesAt(messages, l, offset), queue) == RunQueue(messages, Live, queue[1..]);
  }

  /**
   * The bound on the renderer's passes is not just a guard against errors: when more than eight `Next` wait below the
   * last highlight, wherever the view was scrolled to, a frame works off eight of them and leaves the rest for the
   * next frame.
   */
  lemma EightPassesCanFallShort(r: Renderer, v: View, limit: nat)
    requires Coherent(r, v) && Redraw(r, v, limit).messages == v.messages
    requires |Queue(v)| > RENDER_PASSES && forall d | d in Queue(v) :: d == Next
    requires var l := r(v.messages);
             NothingBelow(v.messages, l, l.clamp(v.offset)) && NothingBelow(v.messages, l, 0)
    ensures Redraw(r, v, limit).seek == Some(Seek(0, Deferred(Queue(v)[RENDER_PASSES..])))
  {
    hide *;
    RedrawParts(r, v, limit);
    FirstFrame(r, v, limit);
    FirstQueue(r, v, Collapse(v, limit));
    PassesLeave(r, RenderOnce(r, Collapse(v, limit)), limit, RENDER_PASSES, v.messages, Goal(r, v));
    RedrawGoal(r, v, limit);
    SeekOfQueue(r, Redraw(r, v, limit));
    SomePasses();
  }

  lemma SomePasses()
    ensures RENDER_PASSES > 0
  {
  }

  lemma SeekOfQueue(r: Renderer, v: View)
    requires Coherent(r, v) && Queue(v) != []
    ensures v.seek == Some(Seek(v.offset, Deferred(Queue(v))))
  {
    hide UniqueIds, RowsTell;
  }

  // ----- collapsing -----

  lemma LastHighlightOfSlice(messages: seq<Message>, from: nat, to: nat)
    requires from <= to <= |messages|
    ensures LastHighlight(messages[from..to]) ==
            match LastHighlight(messages[..to])
            case Some(i) => if i >= from then Some(i - from) else None
            case None => None
  {
    var part, all := messages[from..to], messages[..to];
    LastHighlightIs(part);
    LastHighlightIs(all);
    assert forall j | 0 <= j < |part| :: part[j] == all[j + from];
    assert forall j | from <= j < |all| :: all[j] == part[j - from];
  }

  lemma IndexAfterDrop(messages: seq<Message>, index: nat, k: nat)
    requires UniqueIds(messages) && k <= index < |messages|
    ensures IndexOf(messages[k..], messages[index].id) == Some(index - k)
  {
    var rest := messages[k..];
    assert forall i | 0 <= i < |rest| :: rest[i] == messages[i + k];
    assert rest[index - k].id == messages[index].id;
  }

  /** The messages a frame keeps when it drops some. */
  function Kept(v: View, limit: nat): seq<Message>
    requires Drops(v, limit)
  {
    v.messages[|v.messages| - limit..]
  }

  /** An idle frame at the bottom of a pinned buffer over its limit: the oldest messages go, all else stays. */
  lemma IdleFrame(r: Renderer, v: View, limit: nat)
    requires Drops(v, limit) && r(Kept(v, limit)).clamp(0) == 0
    ensures Redraw(r, v, limit) ==
            v.(messages := Kept(v, limit), rows := Some(RowsAt(r(Kept(v, limit)), 0)), pinned := false)
  {
    var next := RenderOnce(r, Collapse(v, limit));
    assert !IsDeferred(next.seek);
  }

  /** Where a press starts from: the message shown, or the rows in view. */
  function Start(v: View): (p: Option<Position>)
    ensures p.Some? ==> Inside(v.messages, p.value) && !p.value.Live?
  {
    match CurrentSeek(v)
    case Some(Shown(id)) => (match IndexOf(v.messages, id) case Some(index) => Some(At(index)) case None => None)
    case Some(_) => None
    case None => if RowsCurrent(v) then Some(EdgesOf(v.messages, v.rows.value)) else None
  }

  /** What it starts from is among the messages from index `k` on. */
  predicate Survives(p: Position, k: nat) {
    match p
    case Edges(top, bottom) => (top.Some? ==> k <= top.value) && (bottom.Some? ==> k <= bottom.value)
    case At(index) => k <= index
    case Live => true
  }

  function Down(i: Option<nat>, k: nat): Option<nat>
    requires i.Some? ==> k <= i.value
  {
    match i case Some(n) => Some(n - k) case None => None
  }

  /** The same position once the first `k` messages are gone. */
  function Shifted(p: Position, k: nat): Position
    requires Survives(p, k)
  {
    match p
    case Edges(top, bottom) => Edges(Down(top, k), Down(bottom, k))
    case At(index) => At(index - k)
    case Live => Live
  }

  lemma NearestAfterDrop(messages: seq<Message>, direction: Direction, from: Option<nat>, k: nat)
    requires k <= |messages| && InRange(messages, from) && (from.Some? ==> k <= from.value)
    ensures var found := Nearest(messages, direction, from);
            Nearest(messages[k..], direction, Down(from, k)) ==
            if found.Some? && found.value < k then None else Down(found, k)
  {
    match direction
    case Previous =>
      var to := if from.Some? then from.value else |messages|;
      assert messages[k..][..to - k] == messages[k..to];
      LastHighlightOfSlice(messages, k, to);
    case Next =>
      if from.Some? {
        FirstHighlightAfterDrop(messages, from.value + 1, k);
      }
  }

  lemma {:induction false} FirstHighlightAfterDrop(messages: seq<Message>, start: nat, k: nat)
    requires k <= start && k <= |messages|
    ensures FirstHighlight(messages[k..], start - k) == Down(FirstHighlight(messages, start), k)
    decreases |messages| - start
  {
    if start < |messages| {
      assert messages[k..][start - k] == messages[start];
      FirstHighlightAfterDrop(messages, start + 1, k);
    }
  }

  /** A seek after the drop leads where it led before, unless that message is gone: then it leads nowhere. */
  lemma SeekAfterDrop(messages: seq<Message>, p: Position, direction: Direction, k: nat)
    requires Inside(messages, p) && !p.Live? && k <= |messages| && Survives(p, k)
    ensures var found := SeekFrom(messages, p, direction);
            SeekFrom(messages[k..], Shifted(p, k), direction) ==
            if Survives(found, k) then Shifted(found, k) else if direction == Next then Live else Shifted(p, k)
  {
    hide Nearest;
    if !(p.Edges? && direction == Next && p.bottom.None?) {
      var from := if p.At? then Some(p.index) else if direction == Previous then p.top else p.bottom;
      NearestAfterDrop(messages, direction, from, k);
    }
  }

  /** `Next` only leads on, so what it finds survives with what it started from. */
  lemma NextSurvives(messages: seq<Message>, p: Position, k: nat)
    requires Inside(messages, p) && !p.Live? && Survives(p, k)
    ensures Survives(SeekFrom(messages, p, Next), k)
  {
  }

  lemma IndexOfAfterDrop(messages: seq<Message>, id: nat, k: nat)
    requires UniqueIds(messages) && k <= |messages|
    requires IndexOf(messages, id).Some? ==> k <= IndexOf(messages, id).value
    ensures IndexOf(messages[k..], id) == Down(IndexOf(messages, id), k)
  {
    var i := IndexOf(messages, id);
    if i.Some? {
      IndexAfterDrop(messages, i.value, k);
    } else {
      assert forall j | 0 <= j < |messages[k..]| :: messages[k..][j] == messages[j + k];
    }
  }

  /** The frame draws the rows that were in view, if it drew rows of the same offset before. */
  predicate SameRows(r: Renderer, v: View, limit: nat)
    requires Drops(v, limit)
  {
    CurrentSeek(v).None? && RowsCurrent(v) ==> v.rows.value == RowsAt(r(Kept(v, limit)), 0)
  }

  lemma StartAfterDrop(r: Renderer, v: View, limit: nat)
    requires UniqueIds(v.messages) && Drops(v, limit) && r(Kept(v, limit)).clamp(0) == 0 && SameRows(r, v, limit)
    requires Start(v).Some? && Survives(Start(v).value, |v.messages| - limit)
    ensures Start(Redraw(r, v, limit)) == Some(Shifted(Start(v).value, |v.messages| - limit))
  {
    hide UniqueIds, IndexOf, Redraw;
    var m, k := v.messages, |v.messages| - limit;
    IdleFrame(r, v, limit);
    match CurrentSeek(v)
    case Some(Shown(id)) => IndexOfAfterDrop(m, id, k);
    case None =>
      RowAfterDrop(m, v.rows.value.top, k);
      RowAfterDrop(m, v.rows.value.bottom, k);
  }

  lemma RowAfterDrop(messages: seq<Message>, row: Option<nat>, k: nat)
    requires UniqueIds(messages) && k <= |messages|
    requires IndexOfRow(messages, row).Some? ==> k <= IndexOfRow(messages, row).value
    ensures IndexOfRow(messages[k..], row) == Down(IndexOfRow(messages, row), k)
  {
    hide IndexOf, UniqueIds;
    if row.Some? {
      IndexOfAfterDrop(messages, row.value, k);
    }
  }

  /** The message a view is on its way to or shows after a seek. */
  function Sought(v: View): Option<nat> {
    match CurrentSeek(v)
    case Some(Pending(id)) => Some(id)
    case Some(Shown(id)) => Some(id)
    case _ => None
  }

  function Aim(messages: seq<Message>, p: Position): Option<nat>
    requires Inside(messages, p)
  {
    if p.At? then Some(messages[p.index].id) else None
  }

  lemma PressFromStart(v: View, limit: nat, direction: Direction)
    requires v.offset == 0 && Start(v).Some?
    ensures var found := SeekFrom(v.messages, Start(v).value, direction);
            Press(v, limit, direction).offset == 0 && Sought(Press(v, limit, direction)) == Aim(v.messages, found)
  {
    hide SeekFrom, IndexOf, EdgesOf;
    var start := Start(v).value;
    var found := SeekFrom(v.messages, start, direction);
    assert RunQueue(v.messages, start, [direction]) == RunQueue(v.messages, found, [direction][1..]) == (found, []);
  }

  lemma AimAfterDrop(messages: seq<Message>, p: Position, k: nat)
    requires Inside(messages, p) && k <= |messages| && Survives(p, k) && Inside(messages[k..], Shifted(p, k))
    ensures Aim(messages[k..], Shifted(p, k)) == Aim(messages, p)
  {
  }

  lemma FrameFacts(r: Renderer, v: View, limit: nat)
    requires Drops(v, limit) && r(Kept(v, limit)).clamp(0) == 0
    ensures limit < |v.messages| && Redraw(r, v, limit).offset == 0
    ensures Redraw(r, v, limit).messages == v.messages[|v.messages| - limit..]
  {
    IdleFrame(r, v, limit);
  }

  lemma PressAfterFrame(r: Renderer, v: View, limit: nat, direction: Direction)
    requires UniqueIds(v.messages) && Drops(v, limit) && r(Kept(v, limit)).clamp(0) == 0 && SameRows(r, v, limit)
    requires Start(v).Some? && Survives(Start(v).value, |v.messages| - limit)
    ensures var found := SeekFrom(v.messages, Start(v).value, direction);
            var later := Press(Redraw(r, v, limit), limit, direction);
            && later.offset == 0
            && Sought(later) ==
                 Aim(v.messages, if Survives(found, |v.messages| - limit) then found else Start(v).value)
  {
    hide *;
    FrameFacts(r, v, limit);
    var m, k, start := v.messages, |v.messages| - limit, Start(v).value;
    StartAfterDrop(r, v, limit);
    PressFromStart(Redraw(r, v, limit), limit, direction);
    SeekAfterDrop(m, start, direction, k);
    var found := SeekFrom(m, start, direction);
    if direction == Next {
      NextSurvives(m, start, k);
    }
    AimAfterDrop(m, if Survives(found, k) then found else start, k);
  }

  /**
   * Redraws do matter where collapsing drops messages. Take any view at the bottom of a pinned buffer that exceeds its
   * limit, with no seek waiting, where what the next seek starts from survives the drop. Pressing at once and pressing
   * after an idle frame lead to the same message, or both to none, unless the first leads to a message that the frame
   * drops; then the second stays where it started.
   */
  lemma IdleFrameForgets(r: Renderer, v: View, limit: nat, direction: Direction)
    requires UniqueIds(v.messages) && Drops(v, limit) && r(Kept(v, limit)).clamp(0) == 0 && SameRows(r, v, limit)
    requires Start(v).Some? && Survives(Start(v).value, |v.messages| - limit)
    ensures var found := SeekFrom(v.messages, Start(v).value, direction);
            var now, later := Press(v, limit, direction), Press(Redraw(r, v, limit), limit, direction);
            && now.offset == later.offset == 0
            && Sought(now) == Aim(v.messages, found)
            && Sought(later) ==
                 (if Survives(found, |v.messages| - limit) then Sought(now) else Aim(v.messages, Start(v).value))
            && (Sought(later) != Sought(now) <==> !Survives(found, |v.messages| - limit))
  {
    var start := Start(v).value;
    var found := SeekFrom(v.messages, start, direction);
    PressFromStart(v, limit, direction);
    PressAfterFrame(r, v, limit, direction);
    hide SeekFrom, Start, UniqueIds, Redraw, Press, CurrentSeek, SameRows, Sought, Kept;
    if !Survives(found, |v.messages| - limit) && start.At? {
      DifferentIds(v.messages, found.index, start.index);
    }
  }

  lemma DifferentIds(messages: seq<Message>, i: nat, j: nat)
    requires UniqueIds(messages) && i < j < |messages|
    ensures messages[i].id != messages[j].id
  {
  }

  // ----- clamping -----

  /**
   * Redraws also matter after scrolling past the top of a view that shows a sought message, when the offset is clamped
   * back to where that message is shown. A press before the redraw seeks from the rows in view; a press after it seeks
   * from the message.
   */
  lemma ClampedBack(r: Renderer, v: View, limit: nat, index: nat, direction: Direction)
    requires Steady(r(v.messages)) && UniqueIds(v.messages) && RowsTell(v, r(v.messages))
    requires index < |v.messages|
    requires var l, id := r(v.messages), v.messages[index].id;
             v.seek == Some(Seek(l.place(id), Shown(id))) && v.offset != l.place(id) == l.clamp(v.offset)
    requires Press(v, limit, direction).messages == v.messages
    requires Press(Redraw(r, v, limit), limit, direction).messages == v.messages
    ensures var m, l, offset := v.messages, r(v.messages), r(v.messages).clamp(v.offset);
            && Goal(r, Press(v, limit, direction)) == Pressed(m, l, Looking(offset), direction)
            && Goal(r, Press(Redraw(r, v, limit), limit, direction)) == Pressed(m, l, On(index), direction)
  {
    hide UniqueIds, IndexOf, Pressed;
    var m, l := v.messages, r(v.messages);
    var offset, id := l.clamp(v.offset), v.messages[index].id;
    IndexOfId(m, index);
    PressedOnce(m, l, Looking(offset), direction);
    assert Collapse(v, limit) == v;
    var drawn := RenderOnce(r, Collapse(v, limit));
    assert drawn.messages == m && drawn.offset == offset && drawn.seek == v.seek
      && drawn.rows == Some(RowsAt(l, offset));
    assert Redraw(r, v, limit) == drawn;
    PressGoal(r, drawn, limit, direction);
  }
}
