/** Mouse and touch input on the canvas of src/components/DoodleCanvas.tsx: the
    coordinate mapping and the start/draw/stop handlers bound to the mouse
    and touch events.

    The 2D context's path is kept as the list of points given to `moveTo`
    and `lineTo`; what `stroke()` paints is a parameter (`Painter`), since
    rasterisation is the browser's. React re-renders between two events, so
    each handler sees the `isDrawing` the previous one set. */
module CanvasInput {
  import opened Wrappers
  import opened Canvas

  datatype ClientPoint = ClientPoint(clientX: real, clientY: real)

  /** A React mouse event carries a client position; a touch event carries
      its current touches, and none at all on `touchend`. */
  datatype InputEvent = MouseEvent(clientX: real, clientY: real) | TouchEvent(touches: seq<ClientPoint>)

  /** A position relative to the canvas's top-left corner. */
  datatype Offset = Offset(offsetX: real, offsetY: real)

  /** The corner of `getBoundingClientRect()`. */
  datatype Rect = Rect(left: real, top: real)

  /** The client position an event is read at: its first touch, else its
      mouse position; a touch event without touches has none. */
  function ClientPosition(e: InputEvent): Option<ClientPoint> {
    match e
    case MouseEvent(x, y) => Some(ClientPoint(x, y))
    case TouchEvent(touches) => if |touches| > 0 then Some(touches[0]) else None
  }

  /** `getCoordinates`: the event's client position less the canvas corner;
      (0, 0) when the canvas is not mounted or the event has no position. */
  function GetCoordinates(rect: Option<Rect>, e: InputEvent): (o: Offset)
    ensures rect.None? || ClientPosition(e).None? ==> o == Offset(0.0, 0.0)
    ensures rect.Some? && ClientPosition(e).Some? ==>
              && rect.value.left + o.offsetX == ClientPosition(e).value.clientX
              && rect.value.top + o.offsetY == ClientPosition(e).value.clientY
  {
    match rect
    case None => Offset(0.0, 0.0)
    case Some(r) =>
      if e.TouchEvent? && |e.touches| > 0 then
        Offset(e.touches[0].clientX - r.left, e.touches[0].clientY - r.top)
      else if e.MouseEvent? then
        Offset(e.clientX - r.left, e.clientY - r.top)
      else
        Offset(0.0, 0.0)
  }

  function ShiftPoint(p: ClientPoint, dx: real, dy: real): ClientPoint {
    ClientPoint(p.clientX + dx, p.clientY + dy)
  }

  /** The same event seen after the page scrolled by (dx, dy). */
  function ShiftEvent(e: InputEvent, dx: real, dy: real): InputEvent {
    match e
    case MouseEvent(x, y) => MouseEvent(x + dx, y + dy)
    case TouchEvent(touches) => TouchEvent(seq(|touches|, i requires 0 <= i < |touches| => ShiftPoint(touches[i], dx, dy)))
  }

  /** Moving the canvas and the cursor together leaves the drawn position
      where it was: only the position relative to the canvas matters. */
  lemma {:induction false} CoordinatesIgnoreScroll(r: Rect, e: InputEvent, dx: real, dy: real)
    ensures GetCoordinates(Some(Rect(r.left + dx, r.top + dy)), ShiftEvent(e, dx, dy)) == GetCoordinates(Some(r), e)
  {
    var shifted := ShiftEvent(e, dx, dy);
    assert ClientPosition(e).Some? ==> ClientPosition(shifted) == Some(ShiftPoint(ClientPosition(e).value, dx, dy));
    assert ClientPosition(e).None? ==> ClientPosition(shifted).None?;
  }

  // ---------------------------------------------------------------------
  // The handlers

  datatype StrokeStyle = StrokeStyle(color: string, lineWidth: real, lineCap: string, lineJoin: string)

  /** A 2D context's style before any assignment: black, one pixel wide,
      butt caps and miter joins (the HTML standard's defaults). */
  const DEFAULT_STYLE := StrokeStyle("#000000", 1.0, "butt", "miter")

  /** The props a render gives the handlers. A prop the host does not pass
      is `None` (`undefined`). */
  datatype Props = Props(color: Option<string>, lineWidth: Option<real>, hasChangeListener: bool)

  /** The context's style after the four assignments `draw` makes before each
      `stroke()`: `undefined` does not parse as a colour, and the context
      accepts only a positive line width, so an absent prop leaves the
      context's value in place. */
  function Styled(current: StrokeStyle, props: Props): StrokeStyle {
    var color := if props.color.Some? then props.color.value else current.color;
    var width := if props.lineWidth.Some? && props.lineWidth.value > 0.0 then props.lineWidth.value else current.lineWidth;
    StrokeStyle(color, width, "round", "round")
  }

  /** Assigning the same props again changes nothing; without props, only
      caps and joins change. */
  lemma StyledStable(current: StrokeStyle, props: Props)
    ensures Styled(Styled(current, props), props) == Styled(current, props)
    ensures props.color.None? && props.lineWidth.None? ==>
              Styled(current, props) == current.(lineCap := "round", lineJoin := "round")
    ensures props.color.Some? ==> Styled(current, props).color == props.color.value
  {
  }

  /** What the handlers do outside their own state: stroke the current path,
      or hand `onCanvasChange` a data URL of the canvas. */
  datatype Effect = Stroked(path: seq<Offset>, style: StrokeStyle) | CanvasChanged(url: DataUrl)

  /** A mounted canvas: its bitmap, its corner on the page, and the stroke
      style its 2D context holds. */
  datatype Mounted = Mounted(surface: Surface, rect: Rect, style: StrokeStyle)

  /** The component's input state: the mounted canvas if any, the
      `isDrawing` state, and the context's current path. */
  datatype InputState = InputState(canvas: Option<Mounted>, isDrawing: bool, path: seq<Offset>)

  /** How `stroke()` paints a path in a style. */
  type Painter = (Surface, seq<Offset>, StrokeStyle) -> Surface

  /** While drawing, the canvas is mounted and the path holds its start. */
  predicate Valid(st: InputState) {
    st.isDrawing ==> st.canvas.Some? && |st.path| >= 1
  }

  function BoundingRect(st: InputState): Option<Rect> {
    match st.canvas
    case None => None
    case Some(m) => Some(m.rect)
  }

  /** `startDrawing`: with a canvas, a new path from the event's position, and
      drawing on; without one, nothing. */
  function StartDrawing(st: InputState, e: InputEvent): (r: InputState)
    ensures st.canvas.None? ==> r == st
    ensures st.canvas.Some? ==>
              && r.canvas == st.canvas && r.isDrawing
              && r.path == [GetCoordinates(BoundingRect(st), e)]
  {
    match st.canvas
    case None => st
    case Some(m) => InputState(st.canvas, true, [GetCoordinates(Some(m.rect), e)])
  }

  /** `draw`: while drawing, the event's position extends the path, the
      props are assigned to the context's style, and the whole path is
      stroked in that style; otherwise nothing. */
  function Draw(st: InputState, e: InputEvent, props: Props, paint: Painter): (r: (InputState, seq<Effect>))
    ensures !st.isDrawing || st.canvas.None? ==> r == (st, [])
    ensures st.isDrawing && st.canvas.Some? ==>
              var style := Styled(st.canvas.value.style, props);
              && r.0.isDrawing && r.0.canvas.Some? && r.0.canvas.value.rect == st.canvas.value.rect
              && r.0.path == st.path + [GetCoordinates(BoundingRect(st), e)]
              && r.0.canvas.value.style == style
              && r.0.canvas.value.surface == paint(st.canvas.value.surface, r.0.path, style)
              && r.1 == [Stroked(r.0.path, style)]
  {
    if !st.isDrawing then (st, [])
    else
      match st.canvas
      case None => (st, [])
      case Some(m) =>
        var path := st.path + [GetCoordinates(Some(m.rect), e)];
        var style := Styled(m.style, props);
        (InputState(Some(Mounted(paint(m.surface, path, style), m.rect, style)), true, path), [Stroked(path, style)])
  }

  /** `stopDrawing`: with a canvas, drawing stops and a listener receives the
      canvas as a data URL, whether a stroke was in progress or not. */
  function StopDrawing(st: InputState, props: Props): (r: (InputState, seq<Effect>))
    ensures st.canvas.None? ==> r == (st, [])
    ensures st.canvas.Some? ==>
              && r.0 == st.(isDrawing := false)
              && r.1 == (if props.hasChangeListener then [CanvasChanged(ToDataUrl(st.canvas.value.surface))] else [])
  {
    match st.canvas
    case None => (st, [])
    case Some(m) =>
      var stopped := st.(isDrawing := false);
      if props.hasChangeListener then (stopped, [CanvasChanged(ToDataUrl(m.surface))]) else (stopped, [])
  }

  /** The seven listeners on the canvas element. */
  datatype EventKind = MouseDown | MouseMove | MouseUp | MouseLeave | TouchStart | TouchMove | TouchEnd {
    predicate IsStart() { this == MouseDown || this == TouchStart }
    predicate IsMove() { this == MouseMove || this == TouchMove }
    predicate IsStop() { this == MouseUp || this == MouseLeave || this == TouchEnd }
  }

  datatype DomEvent = DomEvent(kind: EventKind, event: InputEvent)

  /** Dispatch of one event to the handler bound to it. */
  function Handle(st: InputState, ev: DomEvent, props: Props, paint: Painter): (r: (InputState, seq<Effect>))
    ensures ev.kind.IsStart() ==> r == (StartDrawing(st, ev.event), [])
    ensures ev.kind.IsMove() ==> r == Draw(st, ev.event, props, paint)
    ensures ev.kind.IsStop() ==> r == StopDrawing(st, props)
  {
    match ev.kind
    case MouseDown => (StartDrawing(st, ev.event), [])
    case TouchStart => (StartDrawing(st, ev.event), [])
    case MouseMove => Draw(st, ev.event, props, paint)
    case TouchMove => Draw(st, ev.event, props, paint)
    case MouseUp => StopDrawing(st, props)
    case MouseLeave => StopDrawing(st, props)
    case TouchEnd => StopDrawing(st, props)
  }

  /** Events handled in order under one set of props: the final state and
      every effect, in order. */
  function Run(st: InputState, events: seq<DomEvent>, props: Props, paint: Painter): (InputState, seq<Effect>)
    decreases |events|
  {
    if |events| == 0 then (st, [])
    else
      var first := Handle(st, events[0], props, paint);
      var rest := Run(first.0, events[1..], props, paint);
      (rest.0, first.1 + rest.1)
  }

  // ---------------------------------------------------------------------
  // Properties of event sequences

  /** Every handler keeps the state valid and the canvas mounted or not, and
      assigning the props again to the style it leaves gives the style they
      gave before. */
  lemma HandlePreservesValid(st: InputState, ev: DomEvent, props: Props, paint: Painter)
    requires Valid(st)
    ensures Valid(Handle(st, ev, props, paint).0)
    ensures Handle(st, ev, props, paint).0.canvas.Some? <==> st.canvas.Some?
    ensures st.canvas.Some? ==>
              Styled(Handle(st, ev, props, paint).0.canvas.value.style, props) == Styled(st.canvas.value.style, props)
  {
    if st.canvas.Some? {
      StyledStable(st.canvas.value.style, props);
    }
  }

  /** A move while not drawing changes nothing and strokes nothing. */
  lemma IdleMoveIgnored(st: InputState, e: InputEvent, props: Props, paint: Painter)
    requires !st.isDrawing
    ensures Handle(st, DomEvent(MouseMove, e), props, paint) == (st, [])
    ensures Handle(st, DomEvent(TouchMove, e), props, paint) == (st, [])
  {
  }

  function CountKind(events: seq<DomEvent>, isKind: EventKind -> bool): nat {
    if |events| == 0 then 0 else (if isKind(events[0].kind) then 1 else 0) + CountKind(events[1..], isKind)
  }

  function CountStrokes(effects: seq<Effect>): nat {
    if |effects| == 0 then 0 else (if effects[0].Stroked? then 1 else 0) + CountStrokes(effects[1..])
  }

  function CountChanges(effects: seq<Effect>): nat {
    if |effects| == 0 then 0 else (if effects[0].CanvasChanged? then 1 else 0) + CountChanges(effects[1..])
  }

  lemma {:induction false} CountsDistribute(a: seq<Effect>, b: seq<Effect>)
    ensures CountStrokes(a + b) == CountStrokes(a) + CountStrokes(b)
    ensures CountChanges(a + b) == CountChanges(a) + CountChanges(b)
    decreases |a|
  {
    if |a| > 0 {
      assert (a + b)[0] == a[0];
      assert (a + b)[1..] == a[1..] + b;
      CountsDistribute(a[1..], b);
    } else {
      assert a + b == b;
    }
  }

  /** Strokes over an event sequence: each is of a path of at least one
      segment, in the style the props give the canvas's initial style. */
  lemma {:induction false} RunStrokes(st: InputState, events: seq<DomEvent>, props: Props, paint: Painter)
    requires Valid(st) && st.canvas.Some?
    ensures var r := Run(st, events, props, paint);
            && Valid(r.0) && r.0.canvas.Some?
            && Styled(r.0.canvas.value.style, props) == Styled(st.canvas.value.style, props)
            && (forall k :: 0 <= k < |r.1| && r.1[k].Stroked? ==>
                  |r.1[k].path| >= 2 && r.1[k].style == Styled(st.canvas.value.style, props))
    decreases |events|
  {
    if |events| > 0 {
      var first := Handle(st, events[0], props, paint);
      HandlePreservesValid(st, events[0], props, paint);
      RunStrokes(first.0, events[1..], props, paint);
      var rest := Run(first.0, events[1..], props, paint);
      var all := first.1 + rest.1;
      var style := Styled(st.canvas.value.style, props);
      forall k | 0 <= k < |all| && all[k].Stroked?
        ensures |all[k].path| >= 2 && all[k].style == style
      {
        if k >= |first.1| {
          assert all[k] == rest.1[k - |first.1|];
        }
      }
    }
  }

  /** Counts over an event sequence: no more strokes than moves, and on a
      mounted canvas one data URL per stop event when there is a listener. */
  lemma {:induction false} RunCounts(st: InputState, events: seq<DomEvent>, props: Props, paint: Painter)
    requires Valid(st)
    ensures var r := Run(st, events, props, paint);
            && Valid(r.0)
            && (r.0.canvas.Some? <==> st.canvas.Some?)
            && CountStrokes(r.1) <= CountKind(events, (k: EventKind) => k.IsMove())
            && (st.canvas.Some? ==>
                  CountChanges(r.1) == (if props.hasChangeListener then CountKind(events, (k: EventKind) => k.IsStop()) else 0))
            && (st.canvas.None? ==> r.1 == [])
    decreases |events|
  {
    if |events| > 0 {
      var first := Handle(st, events[0], props, paint);
      HandlePreservesValid(st, events[0], props, paint);
      RunCounts(first.0, events[1..], props, paint);
      var rest := Run(first.0, events[1..], props, paint);
      CountsDistribute(first.1, rest.1);
    }
  }

  /** Over any event sequence from a valid state: every stroke is of a path
      of at least one segment, in the style the props give the canvas's
      initial style (round caps and joins); there are no more strokes than
      move events; and on a mounted canvas with a listener, exactly one data
      URL per stop event (none without a listener). */
  lemma {:induction false} RunEffects(st: InputState, events: seq<DomEvent>, props: Props, paint: Painter)
    requires Valid(st)
    ensures var r := Run(st, events, props, paint);
            && Valid(r.0)
            && (r.0.canvas.Some? <==> st.canvas.Some?)
            && (st.canvas.Some? ==>
                  && Styled(r.0.canvas.value.style, props) == Styled(st.canvas.value.style, props)
                  && (forall k :: 0 <= k < |r.1| && r.1[k].Stroked? ==>
                        |r.1[k].path| >= 2 && r.1[k].style == Styled(st.canvas.value.style, props)))
            && CountStrokes(r.1) <= CountKind(events, (k: EventKind) => k.IsMove())
            && (st.canvas.Some? ==>
                  CountChanges(r.1) == (if props.hasChangeListener then CountKind(events, (k: EventKind) => k.IsStop()) else 0))
            && (st.canvas.None? ==> r.1 == [])
  {
    RunCounts(st, events, props, paint);
    if st.canvas.Some? {
      RunStrokes(st, events, props, paint);
    }
  }

  /** The hosts pass neither `color` nor `lineWidth`: on a canvas whose
      context has its initial style, every stroke is black, one pixel wide,
      with round caps and joins. */
  lemma {:induction false} HostsStrokeInDefaultStyle(m: Mounted, events: seq<DomEvent>, paint: Painter)
    requires m.style == DEFAULT_STYLE
    ensures var r := Run(InputState(Some(m), false, []), events, Props(None, None, false), paint);
            forall k :: 0 <= k < |r.1| && r.1[k].Stroked? ==>
              r.1[k].style == StrokeStyle("#000000", 1.0, "round", "round")
  {
    RunStrokes(InputState(Some(m), false, []), events, Props(None, None, false), paint);
  }

  /** Press, drag and release with a listener: one stroke of the press and
      drag positions, then the painted canvas reported. */
  lemma PressDragRelease(m: Mounted, e0: InputEvent, e1: InputEvent, props: Props, paint: Painter)
    requires props.hasChangeListener
    ensures var path := [GetCoordinates(Some(m.rect), e0), GetCoordinates(Some(m.rect), e1)];
            var painted := paint(m.surface, path, Styled(m.style, props));
            Run(InputState(Some(m), false, []),
                [DomEvent(MouseDown, e0), DomEvent(MouseMove, e1), DomEvent(MouseUp, e1)], props, paint)
            == (InputState(Some(Mounted(painted, m.rect, Styled(m.style, props))), false, path),
                [Stroked(path, Styled(m.style, props)), CanvasChanged(ToDataUrl(painted))])
  {
    var st0 := InputState(Some(m), false, []);
    var events := [DomEvent(MouseDown, e0), DomEvent(MouseMove, e1), DomEvent(MouseUp, e1)];
    var st1 := StartDrawing(st0, e0);
    var st2 := Draw(st1, e1, props, paint);
    var st3 := StopDrawing(st2.0, props);
    assert events[1..] == [DomEvent(MouseMove, e1), DomEvent(MouseUp, e1)];
    assert events[1..][1..] == [DomEvent(MouseUp, e1)];
    assert events[1..][1..][1..] == [];
    assert Run(st2.0, events[1..][1..], props, paint) == (st3.0, st3.1 + []);
    assert Run(st1, events[1..], props, paint) == (st3.0, st2.1 + (st3.1 + []));
    assert Run(st0, events, props, paint) == (st3.0, [] + (st2.1 + (st3.1 + [])));
    var path := [GetCoordinates(Some(m.rect), e0), GetCoordinates(Some(m.rect), e1)];
    assert st1.path + [GetCoordinates(Some(m.rect), e1)] == path;
    assert st3.0 == InputState(Some(Mounted(paint(m.surface, path, Styled(m.style, props)), m.rect, Styled(m.style, props))), false, path);
    assert st2.1 == [Stroked(path, Styled(m.style, props))];
    assert st3.1 == [CanvasChanged(ToDataUrl(paint(m.surface, path, Styled(m.style, props))))];
    assert [] + (st2.1 + (st3.1 + [])) == [st2.1[0], st3.1[0]];
  }

  /** A cursor leaving an idle canvas still reports it to the listener. */
  lemma LeaveWhileIdleReports(m: Mounted, e: InputEvent, props: Props, paint: Painter)
    requires props.hasChangeListener
    ensures Handle(InputState(Some(m), false, []), DomEvent(MouseLeave, e), props, paint)
            == (InputState(Some(m), false, []), [CanvasChanged(ToDataUrl(m.surface))])
  {
  }
}
