/**
 * What keeps a sought message there: over every run the buffer stays pinned while a message that was found waits to be
 * shown, and a press after the message is gone seeks from the rows instead.
 */
module HighlightSeekSafety {
  import opened Wrappers
  import opened HighlightSeeking
  import opened HighlightSeekGoals
  import opened HighlightSeekRuns

  /** A message that was found, and is still to be shown, is in the buffer, and the buffer is pinned. */
  predicate Kept(v: View) {
    v.seek.Some? && v.seek.value.state.Pending? ==>
      v.pinned && exists i | 0 <= i < |v.messages| :: v.messages[i].id == v.seek.value.state.id
  }

  lemma RunKeepsIt(v: View, limit: nat, start: Position, queue: seq<Direction>)
    requires Inside(v.messages, start) && Kept(v)
    ensures Kept(RunSeeks(v, limit, start, queue))
  {
    hide RunQueue;
  }

  lemma PressKeepsIt(v: View, limit: nat, direction: Direction)
    requires Kept(v)
    ensures Kept(Press(v, limit, direction))
  {
    hide RunSeeks, EdgesOf;
    match CurrentSeek(v)
    case Some(Pending(id)) => PressFromKeepsIt(v, limit, id, direction);
    case Some(Shown(id)) => PressFromKeepsIt(v, limit, id, direction);
    case Some(Deferred(_)) =>
    case None =>
      if RowsCurrent(v) {
        RunKeepsIt(v, limit, EdgesOf(v.messages, v.rows.value), [direction]);
      }
  }

  lemma PressFromKeepsIt(v: View, limit: nat, id: nat, direction: Direction)
    requires Kept(v)
    ensures Kept(PressFrom(v, limit, id, direction))
  {
    hide RunSeeks;
    if IndexOf(v.messages, id).Some? {
      RunKeepsIt(v, limit, At(IndexOf(v.messages, id).value), [direction]);
    }
  }

  lemma ResolveKeepsIt(v: View, limit: nat)
    requires Kept(v)
    ensures Kept(Resolve(v, limit).0)
  {
    hide RunSeeks, EdgesOf;
    if IsDeferred(v.seek) && v.seek.value.offset == v.offset && RowsCurrent(v) {
      RunKeepsIt(v, limit, EdgesOf(v.messages, v.rows.value), v.seek.value.state.queue);
    }
  }

  lemma {:induction false} PassesKeepIt(r: Renderer, v: View, limit: nat, n: nat)
    requires Kept(v)
    ensures Kept(Passes(r, v, limit, n))
    decreases n
  {
    hide Resolve, RenderOnce, Kept;
    if n > 0 {
      var (next, again) := Resolve(v, limit);
      ResolveKeepsIt(v, limit);
      if again {
        RenderKeepsIt(r, next);
        PassesKeepIt(r, RenderOnce(r, next), limit, n - 1);
      }
    }
  }

  lemma RenderKeepsIt(r: Renderer, v: View)
    ensures Kept(RenderOnce(r, v))
  {
  }

  lemma RedrawKeepsIt(r: Renderer, v: View, limit: nat)
    requires Kept(v)
    ensures Kept(Redraw(r, v, limit))
  {
    hide Passes, RenderOnce, Kept, Collapse;
    RenderKeepsIt(r, Collapse(v, limit));
    PassesKeepIt(r, RenderOnce(r, Collapse(v, limit)), limit, RENDER_PASSES);
  }

  lemma {:induction false} RedrawsKeepIt(r: Renderer, v: View, limit: nat, n: nat)
    requires Kept(v)
    ensures Kept(RedrawTimes(r, v, limit, n))
    decreases n
  {
    hide Redraw, Kept;
    if n > 0 {
      RedrawKeepsIt(r, v, limit);
      RedrawsKeepIt(r, Redraw(r, v, limit), limit, n - 1);
    }
  }

  lemma HappenKeepsIt(v: View, limit: nat, input: Input)
    requires Kept(v)
    ensures Kept(Happen(v, limit, input))
  {
    hide Press, Collapse;
    match input
    case Pressing(direction) => PressKeepsIt(v, limit, direction);
    case Moving(motion, bound) =>
  }

  /** Over every run of presses, scrolls and redraws, what was found is kept until it has been shown or given up. */
  lemma {:induction false} SoughtIsKept(r: Renderer, v: View, limit: nat, turns: seq<Turn>, second: bool)
    requires Kept(v)
    ensures Kept(Played(r, v, limit, turns, second))
    decreases |turns|
  {
    hide Happen, Kept, RedrawTimes;
    if turns != [] {
      RedrawsKeepIt(r, v, limit, Redraws(turns[0], second));
      HappenKeepsIt(HighlightSeekRuns.Drawn(r, v, limit, turns[0], second), limit, turns[0].input);
      SoughtIsKept(r, Turned(r, v, limit, turns[0], second), limit, turns[1..], second);
    }
  }

  /** When the message last sought has been dropped, a press leads where one from the rows does. */
  lemma LostMessageGoal(r: Renderer, v: View, limit: nat, id: nat, direction: Direction)
    requires CurrentSeek(v) == Some(Pending(id)) || CurrentSeek(v) == Some(Shown(id))
    requires IndexOf(v.messages, id).None?
    ensures var next, l := Press(v, limit, direction), r(v.messages);
            && next.messages == v.messages && next.offset == v.offset
            && Goal(r, next) == Pressed(v.messages, l, Looking(l.clamp(v.offset)), direction)
  {
    hide IndexOf, Pressed;
    PressedOnce(v.messages, r(v.messages), Looking(r(v.messages).clamp(v.offset)), direction);
  }
}
