/**
 * Highlight seeking of src/app/highlight_seek.rs, and what its renderer in src/ui/chat_view.rs does with it: seeks
 * pressed before a redraw wait in a queue and are resolved against the rows the next frame draws. One chat buffer is
 * modelled; a seek, or rows, of another buffer count as none.
 */
module HighlightSeeking {
  import opened Wrappers

  datatype Direction = Previous | Next
  datatype Message = Message(id: nat, highlight: bool)

  datatype SeekState =
    | Deferred(queue: seq<Direction>)
    | Pending(id: nat)
    | Shown(id: nat)

  datatype Seek = Seek(offset: nat, state: SeekState)

  /** The rows of the last frame: where it was drawn, and the messages of its top and bottom row. */
  datatype Rows = Rows(offset: nat, top: Option<nat>, bottom: Option<nat>)

  datatype View = View(messages: seq<Message>, offset: nat, seek: Option<Seek>, rows: Option<Rows>, pinned: bool)

  /** Where a sequence of seeks stands: message indices at the edges of the view, a message, or the live end. */
  datatype Position = Edges(top: Option<nat>, bottom: Option<nat>) | At(index: nat) | Live

  // ----- the nearest highlight -----

  function LastHighlight(messages: seq<Message>): (r: Option<nat>)
    ensures r.Some? ==> r.value < |messages|
  {
    if messages == [] then None
    else if messages[|messages| - 1].highlight then Some(|messages| - 1)
    else LastHighlight(messages[..|messages| - 1])
  }

  function FirstHighlight(messages: seq<Message>, start: nat): (r: Option<nat>)
    ensures r.Some? ==> start <= r.value < |messages|
    decreases |messages| - start
  {
    if start >= |messages| then None
    else if messages[start].highlight then Some(start)
    else FirstHighlight(messages, start + 1)
  }

  predicate InRange(messages: seq<Message>, from: Option<nat>) { from.Some? ==> from.value < |messages| }

  /** `nearest_highlight`. */
  function Nearest(messages: seq<Message>, direction: Direction, from: Option<nat>): (r: Option<nat>)
    requires InRange(messages, from)
    ensures InRange(messages, r)
  {
    match direction
    case Previous => LastHighlight(messages[..if from.Some? then from.value else |messages|])
    case Next => if from.None? then None else FirstHighlight(messages, from.value + 1)
  }

  lemma {:induction false} LastHighlightIs(messages: seq<Message>)
    ensures match LastHighlight(messages)
            case Some(i) => messages[i].highlight && forall j | i < j < |messages| :: !messages[j].highlight
            case None => forall j | 0 <= j < |messages| :: !messages[j].highlight
  {
    if messages != [] && !messages[|messages| - 1].highlight {
      LastHighlightIs(messages[..|messages| - 1]);
      assert forall j | 0 <= j < |messages| - 1 :: messages[..|messages| - 1][j] == messages[j];
    }
  }

  lemma {:induction false} FirstHighlightIs(messages: seq<Message>, start: nat)
    ensures match FirstHighlight(messages, start)
            case Some(i) => messages[i].highlight && forall j | start <= j < i :: !messages[j].highlight
            case None => forall j | start <= j < |messages| :: !messages[j].highlight
    decreases |messages| - start
  {
    if start < |messages| && !messages[start].highlight {
      FirstHighlightIs(messages, start + 1);
    }
  }

  /** It is a highlight strictly on that side, with no highlight in between; and `None` means there is none there. */
  lemma NearestIsNearest(messages: seq<Message>, direction: Direction, from: nat)
    requires from < |messages|
    ensures match (Nearest(messages, direction, Some(from)), direction)
            case (Some(i), Previous) =>
              i < from && messages[i].highlight && forall j | i < j < from :: !messages[j].highlight
            case (Some(i), Next) =>
              from < i < |messages| && messages[i].highlight && forall j | from < j < i :: !messages[j].highlight
            case (None, Previous) => forall j | 0 <= j < from :: !messages[j].highlight
            case (None, Next) => forall j | from < j < |messages| :: !messages[j].highlight
  {
    LastHighlightIs(messages[..from]);
    FirstHighlightIs(messages, from + 1);
    assert forall j | 0 <= j < from :: messages[..from][j] == messages[j];
  }

  // ----- running a queue -----

  predicate Inside(messages: seq<Message>, p: Position) {
    match p
    case Edges(top, bottom) => InRange(messages, top) && InRange(messages, bottom)
    case At(index) => index < |messages|
    case Live => true
  }

  /** Where one seek leads; `p` is not the live end, whose edges are not known. */
  function SeekFrom(messages: seq<Message>, p: Position, direction: Direction): (r: Position)
    requires Inside(messages, p) && !p.Live?
    ensures Inside(messages, r) && (r.Edges? ==> r == p)
  {
    if p.Edges? && direction == Next && p.bottom.None? then p
    else
      var from := if p.At? then Some(p.index) else if direction == Previous then p.top else p.bottom;
      match Nearest(messages, direction, from)
      case Some(found) => At(found)
      case None => if direction == Next then Live else p
  }

  /** The loop of `run_seeks`: where the queue leads, and the seeks that have to wait for the live view. */
  function RunQueue(messages: seq<Message>, p: Position, queue: seq<Direction>): (r: (Position, seq<Direction>))
    requires Inside(messages, p)
    ensures Inside(messages, r.0) && (r.0.Edges? ==> r.0 == p)
    ensures !r.0.Live? ==> r.1 == []
    ensures |r.1| <= |queue| && (queue != [] && !p.Live? ==> |r.1| < |queue|)
    decreases |queue|
  {
    if queue == [] || p.Live? then (p, queue)
    else RunQueue(messages, SeekFrom(messages, p, queue[0]), queue[1..])
  }

  // ----- the view -----

  function IndexOf(messages: seq<Message>, id: nat): (r: Option<nat>)
    ensures r.Some? ==> r.value < |messages| && messages[r.value].id == id
    ensures r.None? ==> forall i | 0 <= i < |messages| :: messages[i].id != id
  {
    if messages == [] then None
    else if messages[0].id == id then Some(0)
    else match IndexOf(messages[1..], id)
      case Some(i) => Some(i + 1)
      case None => None
  }

  function IndexOfRow(messages: seq<Message>, row: Option<nat>): (r: Option<nat>)
    ensures InRange(messages, r)
  {
    match row case Some(id) => IndexOf(messages, id) case None => None
  }

  function EdgesOf(messages: seq<Message>, rows: Rows): (r: Position)
    ensures Inside(messages, r)
  {
    Edges(IndexOfRow(messages, rows.top), IndexOfRow(messages, rows.bottom))
  }

  predicate IsPending(seek: Option<Seek>) { seek.Some? && !seek.value.state.Shown? }

  predicate IsDeferred(seek: Option<Seek>) { seek.Some? && seek.value.state.Deferred? }

  /** The seek still in effect: nothing scrolled the view since. */
  function CurrentSeek(v: View): Option<SeekState> {
    if v.seek.Some? && v.seek.value.offset == v.offset then Some(v.seek.value.state) else None
  }

  predicate RowsCurrent(v: View) { v.rows.Some? && v.rows.value.offset == v.offset }

  function Defer(v: View, queue: seq<Direction>): View { v.(seek := Some(Seek(v.offset, Deferred(queue)))) }

  /** `collapse_backlog_if_at_bottom`: back at the bottom, a pinned buffer drops what exceeds the scrollback limit. */
  function Collapse(v: View, limit: nat): View {
    if v.offset != 0 || IsPending(v.seek) || !v.pinned then v
    else
      v.(pinned := false,
         messages := if limit > 0 && |v.messages| > limit then v.messages[|v.messages| - limit..] else v.messages)
  }

  /** `run_seeks`. */
  function RunSeeks(v: View, limit: nat, start: Position, queue: seq<Direction>): View
    requires Inside(v.messages, start)
  {
    var (position, rest) := RunQueue(v.messages, start, queue);
    match position
    case At(index) => v.(pinned := true, seek := Some(Seek(v.offset, Pending(v.messages[index].id))))
    case Live =>
      var live := Collapse(v.(seek := None, offset := 0), limit);
      if rest == [] then live else Defer(live, rest)
    case Edges(_, _) => if IsDeferred(v.seek) then v.(seek := None) else v
  }

  /** `seek_highlight`. */
  function Press(v: View, limit: nat, direction: Direction): View {
    match CurrentSeek(v)
    case Some(Deferred(queue)) => Defer(v, queue + [direction])
    case Some(Pending(id)) => PressFrom(v, limit, id, direction)
    case Some(Shown(id)) => PressFrom(v, limit, id, direction)
    case None =>
      if RowsCurrent(v) then RunSeeks(v, limit, EdgesOf(v.messages, v.rows.value), [direction])
      else Defer(v, [direction])
  }

  function PressFrom(v: View, limit: nat, id: nat, direction: Direction): View {
    match IndexOf(v.messages, id)
    case Some(index) => RunSeeks(v, limit, At(index), [direction])
    case None => Defer(v, [direction])
  }

  /** `resolve_deferred_seek`: also whether the view must be drawn again. */
  function Resolve(v: View, limit: nat): (View, bool) {
    if !IsDeferred(v.seek) then (v, false)
    else if v.seek.value.offset != v.offset || !RowsCurrent(v) then (v.(seek := None), false)
    else
      var next := RunSeeks(v, limit, EdgesOf(v.messages, v.rows.value), v.seek.value.state.queue);
      (next, next.offset != v.offset || IsPending(next.seek))
  }

  /** `cancel_pending_highlight_seek`. */
  function CancelPending(v: View): View { if IsPending(v.seek) then v.(seek := None) else v }

  // ----- the same, in place -----

  class ChatView {
    const limit: nat
    var messages: seq<Message>
    var offset: nat
    var seek: Option<Seek>
    var rows: Option<Rows>
    var pinned: bool

    constructor (messages: seq<Message>, limit: nat)
      ensures this.limit == limit && State() == View(messages, 0, None, None, false)
    {
      this.limit, this.messages := limit, messages;
      offset, seek, rows, pinned := 0, None, None, false;
    }

    ghost function State(): View
      reads this
    {
      View(messages, offset, seek, rows, pinned)
    }

    method CollapseIfAtBottom()
      modifies this`messages, this`pinned
      ensures State() == Collapse(old(State()), limit)
    {
      if offset != 0 || IsPending(seek) || !pinned {
        return;
      }
      pinned := false;
      if limit > 0 && |messages| > limit {
        messages := messages[|messages| - limit..];
      }
    }

    method Run(start: Position, waiting: seq<Direction>)
      requires Inside(messages, start)
      modifies this
      ensures State() == RunSeeks(old(State()), limit, start, waiting)
    {
      var position, queue := start, waiting;
      hide Nearest;
      while queue != []
        invariant Inside(messages, position)
        invariant RunQueue(messages, position, queue) == RunQueue(messages, start, waiting)
        invariant State() == old(State())
        decreases |queue|
      {
        if position.Live? {
          break;
        }
        var direction := queue[0];
        queue := queue[1..];
        if position.Edges? && direction == Next && position.bottom.None? {
          continue;
        }
        var from := if position.At? then Some(position.index)
                    else if direction == Previous then position.top else position.bottom;
        var found := Nearest(messages, direction, from);
        if found.Some? {
          position := At(found.value);
        } else if direction == Next {
          position := Live;
        }
      }
      match position
      case At(index) =>
        pinned := true;
        seek := Some(Seek(offset, Pending(messages[index].id)));
      case Live =>
        seek := None;
        offset := 0;
        CollapseIfAtBottom();
        if queue != [] {
          seek := Some(Seek(offset, Deferred(queue)));
        }
      case Edges(_, _) =>
        if IsDeferred(seek) {
          seek := None;
        }
    }

    method SeekHighlight(direction: Direction)
      modifies this
      ensures State() == Press(old(State()), limit, direction)
    {
      hide RunSeeks, EdgesOf;
      var start: Option<Position> := None;
      if seek.Some? && seek.value.offset == offset {
        match seek.value.state
        case Deferred(queue) =>
          seek := Some(Seek(offset, Deferred(queue + [direction])));
          return;
        case Pending(id) => start := StartAt(id);
        case Shown(id) => start := StartAt(id);
      } else if rows.Some? && rows.value.offset == offset {
        start := Some(EdgesOf(messages, rows.value));
      }
      if start.Some? {
        Run(start.value, [direction]);
      } else {
        seek := Some(Seek(offset, Deferred([direction])));
      }
    }

    function StartAt(id: nat): (start: Option<Position>)
      reads this
      ensures start.Some? ==> Inside(messages, start.value)
    {
      match IndexOf(messages, id) case Some(index) => Some(At(index)) case None => None
    }

    method ResolveDeferredSeek() returns (again: bool)
      modifies this
      ensures (State(), again) == Resolve(old(State()), limit)
    {
      hide RunSeeks, EdgesOf;
      if !IsDeferred(seek) {
        return false;
      }
      if seek.value.offset != offset || rows.None? || rows.value.offset != offset {
        seek := None;
        return false;
      }
      var requested := offset;
      Run(EdgesOf(messages, rows.value), seek.value.state.queue);
      return offset != requested || IsPending(seek);
    }
  }
}
