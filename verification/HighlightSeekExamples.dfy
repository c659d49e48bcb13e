/**
 * Redraws do make a difference where the conditions of module HighlightSeekRuns fail: inputs for which they do, in a
 * chat of eight messages of one row each, with highlights 3 and 4, in a view three rows high.
 */
module HighlightSeekExamples {
  import opened Wrappers
  import opened HighlightSeeking
  import opened HighlightSeekGoals
  import opened HighlightSeekRuns

  function Chat(): seq<Message> {
    [Message(0, false), Message(1, false), Message(2, false), Message(3, true), Message(4, true), Message(5, false),
     Message(6, false), Message(7, false)]
  }

  function Minus(a: nat, b: nat): (d: nat)
    ensures d <= a && (a > 0 && b > 0 ==> d < a)
  {
    if b <= a then a - b else 0
  }

  function AtMost(a: nat, b: nat): nat { if a <= b then a else b }

  function PlaceOf(messages: seq<Message>, id: nat): nat {
    match IndexOf(messages, id) case Some(i) => Minus(Minus(|messages|, 3), Minus(i, 1)) case None => 0
  }

  function TopRow(messages: seq<Message>, offset: nat): Option<nat> {
    if messages == [] then None else Some(messages[Minus(Minus(|messages|, 3), offset)].id)
  }

  function BottomRow(messages: seq<Message>, offset: nat): Option<nat> {
    if offset < |messages| then Some(messages[|messages| - 1 - offset].id) else None
  }

  /** Three rows of one-row messages; a sought message goes a third of the way down. */
  function ThreeRows(messages: seq<Message>): Layout {
    Layout(
      (o: nat) => AtMost(o, Minus(|messages|, 3)), (o: nat) => TopRow(messages, o), (o: nat) => BottomRow(messages, o),
      (id: nat) => PlaceOf(messages, id))
  }

  lemma ThreeRowsAreSteady(messages: seq<Message>)
    ensures Steady(ThreeRows(messages))
  {
  }

  function At(offset: nat, seek: Option<Seek>, drawn: nat, pinned: bool): View {
    View(Chat(), offset, seek, Some(RowsAt(ThreeRows(Chat()), drawn)), pinned)
  }

  lemma ChatIds()
    ensures UniqueIds(Chat())
    ensures forall i | 0 <= i < 8 :: IndexOf(Chat(), i) == Some(i)
  {
    forall i | 0 <= i < 8
      ensures IndexOf(Chat(), i) == Some(i)
    {
      hide IndexOf;
      IndexOfId(Chat(), i);
    }
  }

  lemma ChatLayout()
    ensures var l := ThreeRows(Chat());
            && l.clamp(0) == 0 && l.clamp(2) == 2 && l.clamp(3) == 3 && l.clamp(5) == 5 && l.clamp(USIZE_MAX / 2) == 5
            && l.place(3) == 3 && l.place(4) == 2 && l.top(0) == Some(5) && l.top(2) == Some(3)
  {
    ChatIds();
    hide IndexOf;
  }

  lemma ChatHighlights()
    ensures Nearest(Chat(), Previous, Some(5)) == Some(4)
    ensures Nearest(Chat(), Previous, Some(4)) == Some(3)
    ensures Nearest(Chat(), Previous, Some(3)) == None
  {
    NearestIsNearest(Chat(), Previous, 5);
    NearestIsNearest(Chat(), Previous, 4);
    NearestIsNearest(Chat(), Previous, 3);
    hide Nearest;
    assert Chat()[4].highlight && Chat()[3].highlight;
    assert !Chat()[0].highlight && !Chat()[1].highlight && !Chat()[2].highlight;
  }

  /** At the bottom, `Previous` finds the message 4. */
  lemma FirstPress()
    ensures Press(At(0, None, 0, false), 0, Previous) == At(0, Some(Seek(0, Pending(4))), 0, true)
  {
    ChatIds();
    ChatLayout();
    ChatHighlights();
    hide Nearest, IndexOf, ThreeRows;
    var v := At(0, None, 0, false);
    var start := EdgesOf(v.messages, v.rows.value);
    var found := SeekFrom(v.messages, start, Previous);
    assert found == Position.At(4);
    hide SeekFrom;
    assert RunQueue(v.messages, start, [Previous]) == RunQueue(v.messages, found, [Previous][1..]) == (found, []);
  }

  lemma FirstFrame()
    ensures Redraw(ThreeRows, At(0, Some(Seek(0, Pending(4))), 0, true), 0) == At(2, Some(Seek(2, Shown(4))), 2, true)
  {
    ChatIds();
    ChatLayout();
    hide IndexOf, ThreeRows;
    var v := At(0, Some(Seek(0, Pending(4))), 0, true);
    var drawn := RenderOnce(ThreeRows, Collapse(v, 0));
    assert Passes(ThreeRows, drawn, 0, RENDER_PASSES) == drawn;
  }

  /**
   * A wheel-up right after a press drops the press and scrolls from where the view was; with a redraw in between it
   * scrolls from the message found.
   */
  lemma WheelAfterPress()
    ensures var pressed, up := Press(At(0, None, 0, false), 0, Previous), Moving(Up(3), false);
            && Happen(pressed, 0, up).offset == 3 && Goal(ThreeRows, Happen(pressed, 0, up)) == Looking(3)
            && Happen(Redraw(ThreeRows, pressed, 0), 0, up).offset == 5
            && Goal(ThreeRows, Happen(Redraw(ThreeRows, pressed, 0), 0, up)) == Looking(5)
  {
    FirstPress();
    FirstFrame();
    ChatLayout();
    hide Press, Redraw, ThreeRows;
  }

  /**
   * Scrolling to the very offset where a sought message was shown finds it again, if it was ever drawn there: after a
   * press, the top and one wheel-down, the next press starts from the rows in the one case and from the message in the
   * other.
   */
  lemma ScrolledOntoMessage()
    ensures var pressed, r := Press(At(0, None, 0, false), 0, Previous), ThreeRows;
            var a := Happen(Redraw(r, Happen(pressed, 0, Moving(Top, true)), 0), 0, Moving(Down(3), false));
            var b := Happen(
              Redraw(r, Happen(Redraw(r, pressed, 0), 0, Moving(Top, true)), 0), 0, Moving(Down(3), false));
            && a.offset == b.offset == 2
            && Goal(r, Press(a, 0, Previous)) == Looking(2) && Goal(r, Press(b, 0, Previous)) == On(3)
  {
    FirstPress();
    FirstFrame();
    TopFrames();
    Motions();
    SecondPresses();
    hide Chat, ThreeRows, Press, Redraw, Happen, Goal;
  }

  lemma Motions()
    ensures Happen(At(0, Some(Seek(0, Pending(4))), 0, true), 0, Moving(Top, true)) == At(USIZE_MAX / 2, None, 0, true)
    ensures Happen(At(2, Some(Seek(2, Shown(4))), 2, true), 0, Moving(Top, true)) ==
            At(USIZE_MAX / 2, Some(Seek(2, Shown(4))), 2, true)
    ensures Happen(At(5, None, 5, true), 0, Moving(Down(3), false)) == At(2, None, 5, true)
    ensures Happen(At(5, Some(Seek(2, Shown(4))), 5, true), 0, Moving(Down(3), false)) ==
            At(2, Some(Seek(2, Shown(4))), 5, true)
  {
    hide ThreeRows;
  }

  lemma TopFrames()
    ensures Redraw(ThreeRows, At(USIZE_MAX / 2, None, 0, true), 0) == At(5, None, 5, true)
    ensures Redraw(ThreeRows, At(USIZE_MAX / 2, Some(Seek(2, Shown(4))), 2, true), 0) ==
            At(5, Some(Seek(2, Shown(4))), 5, true)
  {
    ChatLayout();
    hide ThreeRows;
    var u, v := At(USIZE_MAX / 2, None, 0, true), At(USIZE_MAX / 2, Some(Seek(2, Shown(4))), 2, true);
    var x, y := RenderOnce(ThreeRows, Collapse(u, 0)), RenderOnce(ThreeRows, Collapse(v, 0));
    assert x == At(5, None, 5, true) && y == At(5, Some(Seek(2, Shown(4))), 5, true);
    assert Passes(ThreeRows, x, 0, RENDER_PASSES) == x && Passes(ThreeRows, y, 0, RENDER_PASSES) == y;
  }

  lemma SecondPresses()
    ensures Goal(ThreeRows, Press(At(2, None, 5, true), 0, Previous)) == Looking(2)
    ensures Goal(ThreeRows, Press(At(2, Some(Seek(2, Shown(4))), 5, true), 0, Previous)) == On(3)
  {
    ChatIds();
    ChatLayout();
    ChatHighlights();
    ThreeRowsAreSteady(Chat());
    hide Nearest, IndexOf, ThreeRows;
    var a, b := At(2, None, 5, true), At(2, Some(Seek(2, Shown(4))), 5, true);
    assert SeekFrom(Chat(), EdgesAt(Chat(), ThreeRows(Chat()), 2), Previous) == EdgesAt(Chat(), ThreeRows(Chat()), 2);
    PressedOnce(Chat(), ThreeRows(Chat()), Looking(2), Previous);
    var found := SeekFrom(Chat(), Position.At(4), Previous);
    assert found == Position.At(3);
    assert Press(a, 0, Previous) == Defer(a, [Previous]);
    hide SeekFrom;
    assert RunQueue(Chat(), Position.At(4), [Previous]) == RunQueue(Chat(), found, [Previous][1..]) == (found, []);
    assert Press(b, 0, Previous).seek == Some(Seek(2, Pending(3)));
  }
}
