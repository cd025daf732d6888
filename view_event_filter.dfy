/**
 * `ViewEventFilter`: the Qt event filter installed on a VTK view. Mouse
 * presses record where they happened; a release close enough to its press
 * (no move that went further than 3 in Manhattan distance) is a click. Each
 * applicable `on...` hook is called, and the event is consumed when any of
 * them says so. Named handler lists are called in registration order until
 * one returns true.
 *
 * What the overridable hooks return is the subclass's business: it is a
 * parameter `answer: Hook -> bool` here, and the hooks called are returned
 * in the order they were called.
 */
module ViewEvents {

  import opened Wrappers

  datatype Point = Point(x: int, y: int)

  /** `(a - b).manhattanLength()`. */
  function Distance(a: Point, b: Point): (d: nat)
    ensures d == 0 <==> a == b
  {
    (if a.x >= b.x then a.x - b.x else b.x - a.x) + (if a.y >= b.y then a.y - b.y else b.y - a.y)
  }

  datatype EventType = MouseButtonDblClick | MouseButtonPress | MouseMove | MouseButtonRelease
                     | Wheel | KeyPress | KeyRelease | OtherEvent

  datatype Button = LeftButton | RightButton | MiddleButton | OtherButton

  /** The parts of a `QEvent` the filter looks at. */
  datatype InputEvent = InputEvent(kind: EventType, button: Button, pos: Point, isAutoRepeat: bool)

  /** The overridable `on...` methods of the filter. */
  datatype Hook =
    | OnLeftDoubleClick | OnLeftMousePress | OnRightMousePress | OnMiddleMousePress | OnMouseMove
    | OnLeftMouseRelease | OnLeftClick | OnRightMouseRelease | OnRightClick | OnMouseWheel
    | OnKeyPress | OnKeyPressRepeat | OnKeyRelease

  /** `_leftMouseStart` and `_rightMouseStart`. */
  datatype FilterState = FilterState(left: Option<Point>, right: Option<Point>)

  /** The state after one event and the hooks called for it, in order. */
  datatype Reaction = Reaction(state: FilterState, calls: seq<Hook>)

  const Initial := FilterState(None, None)

  /** A recorded start survives a move to `pos` unless the move went further than 3 from it. */
  function AfterMove(start: Option<Point>, pos: Point): Option<Point> {
    if start.Some? && Distance(pos, start.value) > 3 then None else start
  }

  /** The effect of `eventFilter` on the two starts, and the hooks it calls. */
  function Filter(st: FilterState, e: InputEvent): Reaction {
    if e.kind == MouseButtonDblClick && e.button == LeftButton then
      Reaction(st, [OnLeftDoubleClick])
    else if e.kind == MouseButtonPress && e.button == LeftButton then
      Reaction(st.(left := Some(e.pos)), [OnLeftMousePress])
    else if e.kind == MouseButtonPress && e.button == RightButton then
      Reaction(st.(right := Some(e.pos)), [OnRightMousePress])
    else if e.kind == MouseButtonPress && e.button == MiddleButton then
      Reaction(st, [OnMiddleMousePress])
    else if e.kind == MouseMove then
      var next := FilterState(AfterMove(st.left, e.pos), AfterMove(st.right, e.pos));
      Reaction(next, if next.left.None? && next.right.None? then [OnMouseMove] else [])
    else if e.kind == MouseButtonRelease && e.button == LeftButton then
      Reaction(st.(left := None), [OnLeftMouseRelease] + (if st.left.Some? then [OnLeftClick] else []))
    else if e.kind == MouseButtonRelease && e.button == RightButton then
      Reaction(st.(right := None), [OnRightMouseRelease] + (if st.right.Some? then [OnRightClick] else []))
    else if e.kind == Wheel then
      Reaction(st, [OnMouseWheel])
    else if e.kind == KeyPress then
      Reaction(st, (if !e.isAutoRepeat then [OnKeyPress] else []) + [OnKeyPressRepeat])
    else if e.kind == KeyRelease && !e.isAutoRepeat then
      Reaction(st, [OnKeyRelease])
    else
      Reaction(st, [])
  }

  /** Some hook that was called asked for the event to be consumed. */
  predicate Consumes(calls: seq<Hook>, answer: Hook -> bool) {
    exists h :: h in calls && answer(h)
  }

  /** The starts after a sequence of events. */
  function Run(st: FilterState, es: seq<InputEvent>): FilterState
    decreases |es|
  {
    if es == [] then st else Run(Filter(st, es[0]).state, es[1..])
  }

  /**
   * Presses: a left press records its position as the left start and a
   * right press as the right start; the other start is kept. A middle press
   * and a left double click record nothing.
   */
  lemma PressRecordsStart(st: FilterState, e: InputEvent)
    requires e.kind == MouseButtonPress || e.kind == MouseButtonDblClick
    ensures var r := Filter(st, e);
            && (e.kind == MouseButtonPress && e.button == LeftButton ==> r.state == FilterState(Some(e.pos), st.right))
            && (e.kind == MouseButtonPress && e.button == RightButton ==> r.state == FilterState(st.left, Some(e.pos)))
            && (e.button == MiddleButton || e.kind == MouseButtonDblClick ==> r.state == st)
  {
  }

  /**
   * Moves: each start is cleared exactly when the cursor is more than 3
   * away from it (at exactly 3 it is kept), nothing new is recorded, and
   * `onMouseMove` is called exactly when neither start remains.
   */
  lemma MoveClearsFarStarts(st: FilterState, e: InputEvent)
    requires e.kind == MouseMove
    ensures var r := Filter(st, e);
            && (r.state.left.None? <==> st.left.None? || Distance(e.pos, st.left.value) > 3)
            && (r.state.right.None? <==> st.right.None? || Distance(e.pos, st.right.value) > 3)
            && (r.state.left.Some? ==> r.state.left == st.left)
            && (r.state.right.Some? ==> r.state.right == st.right)
            && (OnMouseMove in r.calls <==> r.state == Initial)
            && r.calls == if r.state == Initial then [OnMouseMove] else []
  {
  }

  /**
   * Releases: `onLeftMouseRelease` is always called first; `onLeftClick`
   * follows exactly when the left start was still set; afterwards the left
   * start is cleared and the right one kept. The same for the right button.
   */
  lemma ReleaseClicksIffStarted(st: FilterState, e: InputEvent)
    requires e.kind == MouseButtonRelease
    ensures var r := Filter(st, e);
            && (e.button == LeftButton ==>
                  && r.calls[0] == OnLeftMouseRelease
                  && (OnLeftClick in r.calls <==> st.left.Some?)
                  && r.state == FilterState(None, st.right))
            && (e.button == RightButton ==>
                  && r.calls[0] == OnRightMouseRelease
                  && (OnRightClick in r.calls <==> st.right.Some?)
                  && r.state == FilterState(st.left, None))
  {
  }

  /**
   * Keys, over every event: `onKeyPress` only for presses that are not
   * auto-repeats, `onKeyPressRepeat` for every press, `onKeyRelease` only
   * for releases that are not auto-repeats; keys never touch the starts.
   */
  lemma KeyHooks(st: FilterState, e: InputEvent)
    ensures var r := Filter(st, e);
            && (OnKeyPress in r.calls <==> e.kind == KeyPress && !e.isAutoRepeat)
            && (OnKeyPressRepeat in r.calls <==> e.kind == KeyPress)
            && (OnKeyRelease in r.calls <==> e.kind == KeyRelease && !e.isAutoRepeat)
            && (e.kind == KeyPress || e.kind == KeyRelease ==> r.state == st)
  {
  }

  /** At most two hooks are called for one event, and a click only ever comes right after its release hook. */
  lemma ClickOnlyOnRelease(st: FilterState, e: InputEvent)
    ensures var r := Filter(st, e);
            && |r.calls| <= 2
            && (OnLeftClick in r.calls ==> e.kind == MouseButtonRelease && e.button == LeftButton && r.calls == [OnLeftMouseRelease, OnLeftClick])
            && (OnRightClick in r.calls ==> e.kind == MouseButtonRelease && e.button == RightButton && r.calls == [OnRightMouseRelease, OnRightClick])
  {
  }

  predicate MovesWithin(moves: seq<InputEvent>, p: Point, bound: nat) {
    forall k :: 0 <= k < |moves| ==> moves[k].kind == MouseMove && Distance(moves[k].pos, p) <= bound
  }

  /** Moves that stay within 3 of a recorded left start keep it. */
  lemma {:induction false} NearMovesKeepStart(st: FilterState, p: Point, moves: seq<InputEvent>)
    requires st.left == Some(p)
    requires MovesWithin(moves, p, 3)
    ensures Run(st, moves).left == Some(p)
    decreases |moves|
  {
    if moves != [] {
      assert MovesWithin(moves[1..], p, 3) by {
        forall k | 0 <= k < |moves[1..]| ensures moves[1..][k] == moves[k + 1] { }
      }
      NearMovesKeepStart(Filter(st, moves[0]).state, p, moves[1..]);
    }
  }

  /** Once the left start is cleared, moves never bring it back. */
  lemma {:induction false} MovesKeepLeftCleared(st: FilterState, moves: seq<InputEvent>)
    requires st.left.None?
    requires forall k :: 0 <= k < |moves| ==> moves[k].kind == MouseMove
    ensures Run(st, moves).left.None?
    decreases |moves|
  {
    if moves != [] {
      MovesKeepLeftCleared(Filter(st, moves[0]).state, moves[1..]);
    }
  }

  /** A run of events split in two is the second part run after the first. */
  lemma {:induction false} RunAppend(st: FilterState, a: seq<InputEvent>, b: seq<InputEvent>)
    ensures Run(st, a + b) == Run(Run(st, a), b)
    decreases |a|
  {
    if a == [] {
      assert a + b == b;
    } else {
      assert (a + b)[1..] == a[1..] + b;
      RunAppend(Filter(st, a[0]).state, a[1..], b);
    }
  }

  /**
   * Click: a left press, any number of moves that stay within 3 of it, then
   * a left release: the release calls `onLeftClick`.
   */
  lemma StillPressClicks(st: FilterState, press: InputEvent, moves: seq<InputEvent>, release: InputEvent)
    requires press.kind == MouseButtonPress && press.button == LeftButton
    requires MovesWithin(moves, press.pos, 3)
    requires release.kind == MouseButtonRelease && release.button == LeftButton
    ensures OnLeftClick in Filter(Run(st, [press] + moves), release).calls
  {
    assert ([press] + moves)[1..] == moves;
    NearMovesKeepStart(Filter(st, press).state, press.pos, moves);
  }

  /**
   * Drag: a left press, moves of which one goes further than 3 from it,
   * then a left release: the release does not call `onLeftClick`.
   */
  lemma DragCancelsClick(st: FilterState, press: InputEvent, moves: seq<InputEvent>, far: nat, release: InputEvent)
    requires press.kind == MouseButtonPress && press.button == LeftButton
    requires forall k :: 0 <= k < |moves| ==> moves[k].kind == MouseMove
    requires far < |moves| && Distance(moves[far].pos, press.pos) > 3
    requires MovesWithin(moves[..far], press.pos, 3)
    requires release.kind == MouseButtonRelease && release.button == LeftButton
    ensures OnLeftClick !in Filter(Run(st, [press] + moves), release).calls
  {
    var pressed := Filter(st, press).state;
    assert ([press] + moves)[1..] == moves;
    assert moves == moves[..far] + [moves[far]] + moves[far + 1..];
    RunAppend(pressed, moves[..far] + [moves[far]], moves[far + 1..]);
    RunAppend(pressed, moves[..far], [moves[far]]);
    NearMovesKeepStart(pressed, press.pos, moves[..far]);
    var cleared := Run(pressed, moves[..far + 1]);
    assert moves[..far] + [moves[far]] == moves[..far + 1];
    assert cleared.left.None?;
    MovesKeepLeftCleared(cleared, moves[far + 1..]);
  }

  /** A named handler registered with `addHandler`. */
  datatype Handler = Handler(id: nat)

  /** The registered handlers of one event type. */
  function HandlersOf(handlers: map<string, seq<Handler>>, eventType: string): seq<Handler> {
    if eventType in handlers then handlers[eventType] else []
  }

  /** How many handlers `callHandler` calls: up to and including the first that returns true. */
  function CalledCount(list: seq<Handler>, answer: Handler -> bool): (n: nat)
    ensures n <= |list|
    ensures forall k :: 0 <= k < n - 1 ==> !answer(list[k])
    ensures n < |list| ==> n > 0 && answer(list[n - 1])
    ensures (exists k :: 0 <= k < |list| && answer(list[k])) <==> n > 0 && answer(list[n - 1])
    decreases |list|
  {
    if list == [] then 0
    else if answer(list[0]) then 1
    else 1 + CalledCount(list[1..], answer)
  }

  const StartRenderEvent := "START_RENDER_EVENT"
  const EndRenderEvent := "END_RENDER_EVENT"

  class ViewEventFilter {
    /** `_leftMouseStart`. */
    var leftMouseStart: Option<Point>
    /** `_rightMouseStart`. */
    var rightMouseStart: Option<Point>
    /** `_handlers`. */
    var handlers: map<string, seq<Handler>>

    function State(): FilterState
      reads this
    {
      FilterState(leftMouseStart, rightMouseStart)
    }

    /** `__init__`: no press recorded and no handler registered. */
    constructor ()
      ensures State() == Initial && handlers == map[]
    {
      leftMouseStart := None;
      rightMouseStart := None;
      handlers := map[];
    }

    /**
     * `eventFilter`: the starts are updated as `Filter` says, the hooks it
     * lists are called in that order, and the event is consumed exactly when
     * one of them returned true.
     */
    method EventFilter(e: InputEvent, answer: Hook -> bool) returns (consumed: bool, called: seq<Hook>)
      modifies this
      ensures var r := Filter(old(State()), e);
              State() == r.state && called == r.calls && consumed == Consumes(called, answer)
      ensures handlers == old(handlers)
    {
      consumed, called := false, [];
      if e.kind == MouseButtonDblClick && e.button == LeftButton {
        consumed, called := Dispatch(OnLeftDoubleClick, answer, consumed, called);
      } else if e.kind == MouseButtonPress && e.button == LeftButton {
        leftMouseStart := Some(e.pos);
        consumed, called := Dispatch(OnLeftMousePress, answer, consumed, called);
      } else if e.kind == MouseButtonPress && e.button == RightButton {
        rightMouseStart := Some(e.pos);
        consumed, called := Dispatch(OnRightMousePress, answer, consumed, called);
      } else if e.kind == MouseButtonPress && e.button == MiddleButton {
        consumed, called := Dispatch(OnMiddleMousePress, answer, consumed, called);
      } else if e.kind == MouseMove {
        if rightMouseStart.Some? {
          if Distance(e.pos, rightMouseStart.value) > 3 {
            rightMouseStart := None;
          }
        }
        if leftMouseStart.Some? {
          if Distance(e.pos, leftMouseStart.value) > 3 {
            leftMouseStart := None;
          }
        }
        if rightMouseStart.None? && leftMouseStart.None? {
          consumed, called := Dispatch(OnMouseMove, answer, consumed, called);
        }
      } else if e.kind == MouseButtonRelease && e.button == LeftButton {
        consumed, called := Dispatch(OnLeftMouseRelease, answer, consumed, called);
        if leftMouseStart.Some? {
          leftMouseStart := None;
          consumed, called := Dispatch(OnLeftClick, answer, consumed, called);
        }
      } else if e.kind == MouseButtonRelease && e.button == RightButton {
        consumed, called := Dispatch(OnRightMouseRelease, answer, consumed, called);
        if rightMouseStart.Some? {
          rightMouseStart := None;
          consumed, called := Dispatch(OnRightClick, answer, consumed, called);
        }
      } else if e.kind == Wheel {
        consumed, called := Dispatch(OnMouseWheel, answer, consumed, called);
      } else if e.kind == KeyPress {
        if !e.isAutoRepeat {
          consumed, called := Dispatch(OnKeyPress, answer, consumed, called);
        }
        consumed, called := Dispatch(OnKeyPressRepeat, answer, consumed, called);
      } else if e.kind == KeyRelease && !e.isAutoRepeat {
        consumed, called := Dispatch(OnKeyRelease, answer, consumed, called);
      }
    }

    /** `consumed = self.onX(event) or consumed`: the hook is called whatever `consumed` already is. */
    static method Dispatch(h: Hook, answer: Hook -> bool, consumed: bool, called: seq<Hook>)
      returns (consumed': bool, called': seq<Hook>)
      requires consumed == Consumes(called, answer)
      ensures called' == called + [h]
      ensures consumed' == Consumes(called', answer)
    {
      called' := called + [h];
      consumed' := answer(h) || consumed;
      assert answer(h) ==> h in called';
      assert forall g :: g in called' <==> g in called || g == h;
    }

    /** `addHandler`: the handler goes at the end of its event type's list; no other list changes. */
    method AddHandler(eventType: string, handler: Handler)
      modifies this
      ensures handlers == old(handlers)[eventType := HandlersOf(old(handlers), eventType) + [handler]]
      ensures State() == old(State())
    {
      handlers := handlers[eventType := HandlersOf(handlers, eventType) + [handler]];
    }

    /**
     * `callHandler`: the handlers of `eventType` are called in order until
     * one returns true; the result says whether one did. With no handler
     * registered it returns false.
     */
    method CallHandler(eventType: string, answer: Handler -> bool) returns (result: bool, called: seq<Handler>)
      ensures var list := HandlersOf(handlers, eventType);
              && called == list[..CalledCount(list, answer)]
              && (result <==> exists k :: 0 <= k < |list| && answer(list[k]))
    {
      var list := HandlersOf(handlers, eventType);
      called := [];
      var i := 0;
      while i < |list|
        invariant 0 <= i <= |list|
        invariant called == list[..i]
        invariant forall k :: 0 <= k < i ==> !answer(list[k])
      {
        called := called + [list[i]];
        if answer(list[i]) {
          CalledCountStopsAtFirst(list, answer, i);
          return true, called;
        }
        i := i + 1;
      }
      CalledCountWithoutTrue(list, answer);
      return false, called;
    }

    /** `onStartRender`: the handlers registered for the render start event. */
    method OnStartRender(answer: Handler -> bool) returns (result: bool, called: seq<Handler>)
      ensures var list := HandlersOf(handlers, StartRenderEvent);
              called == list[..CalledCount(list, answer)] && (result <==> exists k :: 0 <= k < |list| && answer(list[k]))
    {
      result, called := CallHandler(StartRenderEvent, answer);
    }

    /** `onEndRender`: the handlers registered for the render end event. */
    method OnEndRender(answer: Handler -> bool) returns (result: bool, called: seq<Handler>)
      ensures var list := HandlersOf(handlers, EndRenderEvent);
              called == list[..CalledCount(list, answer)] && (result <==> exists k :: 0 <= k < |list| && answer(list[k]))
    {
      result, called := CallHandler(EndRenderEvent, answer);
    }
  }

  /** When the first true answer is at `i`, `callHandler` calls exactly `list[..i + 1]`. */
  lemma {:induction false} CalledCountStopsAtFirst(list: seq<Handler>, answer: Handler -> bool, i: nat)
    requires i < |list| && answer(list[i])
    requires forall k :: 0 <= k < i ==> !answer(list[k])
    ensures CalledCount(list, answer) == i + 1
    decreases i
  {
    if i > 0 {
      CalledCountStopsAtFirst(list[1..], answer, i - 1);
    }
  }

  /** When no handler returns true, `callHandler` calls them all. */
  lemma {:induction false} CalledCountWithoutTrue(list: seq<Handler>, answer: Handler -> bool)
    requires forall k :: 0 <= k < |list| ==> !answer(list[k])
    ensures CalledCount(list, answer) == |list|
    decreases |list|
  {
    if list != [] {
      CalledCountWithoutTrue(list[1..], answer);
    }
  }

  /**
   * A handler added later never pre-empts earlier ones: after `addHandler`,
   * `callHandler` calls the same handlers as before, and reaches the new
   * one only when none of the earlier ones returned true.
   */
  lemma {:induction false} AddedHandlerRunsLast(list: seq<Handler>, h: Handler, answer: Handler -> bool)
    ensures var n := CalledCount(list, answer);
            n < |list| || (n > 0 && answer(list[n - 1])) ==> CalledCount(list + [h], answer) == n
    ensures (forall k :: 0 <= k < |list| ==> !answer(list[k])) ==> CalledCount(list + [h], answer) == |list| + 1
    decreases |list|
  {
    if list != [] {
      assert (list + [h])[1..] == list[1..] + [h];
      AddedHandlerRunsLast(list[1..], h, answer);
    }
  }
}
