/** The surface host of tools/browser-surface-host/src/surface_host.c: a frame window that
    shows a child window over part of an anchor window. Widths are C's: the requested
    rectangle is computed in 64 bits and narrowed again, and every conversion is proved to
    keep its value. */
module SurfaceHost {
  import opened Outcomes

  newtype int32 = x: int | -0x8000_0000 <= x < 0x8000_0000
  newtype uint32 = x: int | 0 <= x < 0x1_0000_0000
  newtype int64 = x: int | -0x8000_0000_0000_0000 <= x < 0x8000_0000_0000_0000

  const MAX_DIMENSION: uint32 := 16384

  /** What parse_options lets through. */
  predicate ValidOptions(o: Options)
  {
    0 < o.width <= MAX_DIMENSION && 0 < o.height <= MAX_DIMENSION
  }

  datatype Options = Options(x: int32, y: int32, width: uint32, height: uint32, task: bool)

  datatype Geometry = Geometry(frameX: int32, frameY: int32, childX: int32, childY: int32, width: uint32,
                               height: uint32)

  type Window = nat

  /** What the X server answers about the anchor: gone, or its attributes, its position on
      the root window and its ancestor just below the root, as far as these can be found. */
  datatype Anchor =
    | Gone
    | Anchor(viewable: bool, width: int32, height: int32, position: Option<(int32, int32)>, rootChild: Option<Window>)

  datatype Clipped = Unavailable | Hidden | Visible(geometry: Geometry)

  function ClippedGeometry(anchor: Anchor, options: Options): Clipped
    requires ValidOptions(options)
  {
    if anchor.Gone? then Unavailable
    else if !anchor.viewable then Hidden
    else if anchor.position.None? then Unavailable
    else
      var (anchorX, anchorY) := anchor.position.value;
      var requestedLeft: int64 := options.x as int64;
      var requestedTop: int64 := options.y as int64;
      var requestedRight: int64 := requestedLeft + options.width as int64;
      var requestedBottom: int64 := requestedTop + options.height as int64;
      var clippedLeft: int64 := if requestedLeft < 0 then 0 else requestedLeft;
      var clippedTop: int64 := if requestedTop < 0 then 0 else requestedTop;
      var clippedRight: int64 :=
        if requestedRight > anchor.width as int64 then anchor.width as int64 else requestedRight;
      var clippedBottom: int64 :=
        if requestedBottom > anchor.height as int64 then anchor.height as int64 else requestedBottom;
      if clippedLeft >= clippedRight || clippedTop >= clippedBottom then Hidden
      else
        var frameX: int64 := anchorX as int64 + clippedLeft;
        var frameY: int64 := anchorY as int64 + clippedTop;
        if frameX < -0x8000_0000 || frameX > 0x7fff_ffff || frameY < -0x8000_0000 || frameY > 0x7fff_ffff then
          Unavailable
        else
          Visible(Geometry(frameX as int32, frameY as int32,
                           (requestedLeft - clippedLeft) as int32, (requestedTop - clippedTop) as int32,
                           (clippedRight - clippedLeft) as uint32, (clippedBottom - clippedTop) as uint32))
  }

  // ---- rectangles on the screen ----

  datatype Rect = Rect(x: int, y: int, width: int, height: int)

  predicate Contains(r: Rect, px: int, py: int)
  {
    r.x <= px < r.x + r.width && r.y <= py < r.y + r.height
  }

  function AnchorRect(anchor: Anchor): Rect
    requires anchor.Anchor? && anchor.position.Some?
  {
    Rect(anchor.position.value.0 as int, anchor.position.value.1 as int, anchor.width as int, anchor.height as int)
  }

  function RequestedRect(anchor: Anchor, options: Options): Rect
    requires anchor.Anchor? && anchor.position.Some?
  {
    Rect(anchor.position.value.0 as int + options.x as int, anchor.position.value.1 as int + options.y as int,
         options.width as int, options.height as int)
  }

  function FrameRect(g: Geometry): Rect
  {
    Rect(g.frameX as int, g.frameY as int, g.width as int, g.height as int)
  }

  /** The child inside the frame. */
  function ChildRect(g: Geometry, options: Options): Rect
  {
    Rect(g.childX as int, g.childY as int, options.width as int, options.height as int)
  }

  /** The frame covers exactly the requested pixels that lie on the anchor, and the child's
      corner stands where it was requested, whatever was cut off. */
  lemma FrameIsIntersection(anchor: Anchor, options: Options)
    requires ValidOptions(options) && ClippedGeometry(anchor, options).Visible?
    ensures var g := ClippedGeometry(anchor, options).geometry;
            && (forall px, py :: Contains(FrameRect(g), px, py) <==>
                  Contains(RequestedRect(anchor, options), px, py) && Contains(AnchorRect(anchor), px, py))
            && g.frameX as int + g.childX as int == RequestedRect(anchor, options).x
            && g.frameY as int + g.childY as int == RequestedRect(anchor, options).y
            && 0 < g.width <= options.width && 0 < g.height <= options.height
            && ChildRect(g, options).width == options.width as int
            && ChildRect(g, options).height == options.height as int
  {
  }

  /** When there is nothing to place. An anchor that is not viewable hides the surface whatever
      its position; a visible surface whose corner no X coordinate can name is unavailable. */
  lemma ClippedCases(anchor: Anchor, options: Options)
    requires ValidOptions(options)
    ensures anchor.Gone? ==> ClippedGeometry(anchor, options).Unavailable?
    ensures anchor.Anchor? && !anchor.viewable ==> ClippedGeometry(anchor, options).Hidden?
    ensures anchor.Anchor? && anchor.viewable && anchor.position.None? ==>
              ClippedGeometry(anchor, options).Unavailable?
    ensures anchor.Anchor? && anchor.viewable && anchor.position.Some? ==>
              var left := anchor.position.value.0 as int + if options.x < 0 then 0 else options.x as int;
              var top := anchor.position.value.1 as int + if options.y < 0 then 0 else options.y as int;
              (ClippedGeometry(anchor, options).Unavailable? <==>
                 !ClippedGeometry(anchor, options).Hidden?
                 && !(-2147483648 <= left <= 2147483647 && -2147483648 <= top <= 2147483647))
  {
  }

  /** A viewable anchor's surface is hidden exactly when no requested pixel lies on it. */
  lemma HiddenExactlyWhenDisjoint(anchor: Anchor, options: Options)
    requires ValidOptions(options) && anchor.Anchor? && anchor.viewable && anchor.position.Some?
    ensures ClippedGeometry(anchor, options).Hidden? <==>
              forall px, py :: !(Contains(RequestedRect(anchor, options), px, py)
                  && Contains(AnchorRect(anchor), px, py))
  {
    var requested, area := RequestedRect(anchor, options), AnchorRect(anchor);
    var px := if requested.x < area.x then area.x else requested.x;
    var py := if requested.y < area.y then area.y else requested.y;
    if !ClippedGeometry(anchor, options).Hidden? {
      assert Contains(requested, px, py) && Contains(area, px, py);
    }
  }

  // ---- the X server's side ----

  datatype Parent = InFrame | OnRoot | InOriginal

  /** The windows this program moves, and the window that the frame was last put above. */
  datatype Server = Server(frame: Rect, frameMapped: bool, frameAlive: bool, above: Option<Window>,
                           child: Rect, childParent: Parent, childMapped: bool,
                           shield: Option<Rect>)

  datatype Original = Original(parentIsRoot: bool, parentX: int, parentY: int, rootX: int, rootY: int,
                               width: int, height: int, mapped: bool)

  datatype Event =
    | ChildDestroyed
    | ChildFocusIn(movedAway: bool)
    | AnchorDestroyed
    | AnchorUnmapped
    | AnchorMapped(anchor: Anchor)
    | AnchorConfigured(anchor: Anchor)
    | OtherEvent

  /** One turn of the main loop: the pending events, then what the anchor looks like. */
  datatype Turn = Turn(events: seq<Event>, anchor: Anchor)

  // ---- whether the frame is mapped ----

  /** A sync succeeds unless the anchor, or the window to stack above, cannot be found. */
  predicate CanSync(options: Options, anchor: Anchor)
    requires ValidOptions(options)
  {
    && !ClippedGeometry(anchor, options).Unavailable?
    && (ClippedGeometry(anchor, options).Visible? ==> anchor.rootChild.Some?)
  }

  function MappedBySync(options: Options, mapped: bool, anchor: Anchor): bool
    requires ValidOptions(options)
  {
    if CanSync(options, anchor) then ClippedGeometry(anchor, options).Visible? else mapped
  }

  function MappedByEvent(options: Options, mapped: bool, event: Event): bool
    requires ValidOptions(options)
  {
    match event
    case ChildFocusIn(movedAway) => mapped && (!options.task || movedAway)
    case AnchorUnmapped => false
    case AnchorMapped(anchor) => MappedBySync(options, mapped, anchor)
    case AnchorConfigured(anchor) => MappedBySync(options, mapped, anchor)
    case _ => mapped
  }

  function MappedByEvents(options: Options, mapped: bool, events: seq<Event>): bool
    requires ValidOptions(options)
  {
    if events == [] then mapped
    else MappedByEvent(options, MappedByEvents(options, mapped, events[..|events| - 1]), events[|events| - 1])
  }

  lemma NoEvents(options: Options, mapped: bool)
    requires ValidOptions(options)
    ensures MappedByEvents(options, mapped, []) == mapped
  {
  }

  lemma OneMoreEvent(options: Options, mapped: bool, events: seq<Event>, i: nat)
    requires ValidOptions(options) && i < |events|
    ensures events[..i + 1] == events[..i] + [events[i]]
    ensures var before := MappedByEvents(options, mapped, events[..i]);
            && MappedByEvents(options, mapped, events[..i + 1]) == MappedByEvent(options, before, events[i])
            && (events[i] == ChildDestroyed || events[i] == AnchorDestroyed ==>
                  MappedByEvent(options, before, events[i]) == before)
  {
    assert events[..i + 1][..i] == events[..i];
  }

  /** Both windows outlive the events of a turn. */
  predicate BothAlive(turn: Turn)
  {
    AnchorDestroyed !in turn.events && ChildDestroyed !in turn.events
  }

  /** The last thing that a turn does to the frame, if both windows are alive, is a sync. */
  function MappedByTurn(options: Options, mapped: bool, turn: Turn): bool
    requires ValidOptions(options)
  {
    var handled := MappedByEvents(options, mapped, turn.events);
    if BothAlive(turn) then MappedBySync(options, handled, turn.anchor) else handled
  }

  function MappedByTurns(options: Options, mapped: bool, turns: seq<Turn>): bool
    requires ValidOptions(options)
  {
    if turns == [] then mapped
    else MappedByTurn(options, MappedByTurns(options, mapped, turns[..|turns| - 1]), turns[|turns| - 1])
  }

  /** The focus entered a task window and could not be moved out again. */
  predicate FocusStuck(options: Options, turn: Turn)
  {
    options.task && ChildFocusIn(false) in turn.events
  }

  class SurfaceHost {
    const options: Options
    var server: Server
    var moves: nat  // how often the frame and its contents were moved
    var frameMapped: bool
    var lastGeometry: Geometry
    var haveGeometry: bool

    /** The cache tells the truth about the server. */
    ghost predicate Valid()
      reads this
    {
      && ValidOptions(options)
      && frameMapped == server.frameMapped
      && server.childParent == InFrame && server.frameAlive
      && (haveGeometry ==> Placed(lastGeometry))
    }

    ghost predicate Placed(g: Geometry)
      reads this
    {
      && server.frame == FrameRect(g)
      && server.child == ChildRect(g, options)
      && (server.shield.Some? ==> server.shield == Some(Rect(0, 0, g.width as int, g.height as int)))
    }

    /** The server shows what a fresh look at the anchor asks for. */
    ghost predicate InStep(anchor: Anchor)
      reads this
      requires ValidOptions(options)
    {
      match ClippedGeometry(anchor, options)
      case Unavailable => false
      case Hidden => !server.frameMapped
      case Visible(g) => server.frameMapped && Placed(g) && anchor.rootChild.Some? && server.above == anchor.rootChild
    }

    /** What a user sees once the server is in step. A mapped frame covers exactly the requested
        pixels on the anchor, the child in it stands exactly where it was requested, in its
        full size, and the shield covers the frame. An unmapped one means that the anchor is
        not viewable, or that no requested pixel lies on it. */
    lemma InStepMeaning(anchor: Anchor)
      requires Valid() && InStep(anchor)
      ensures server.frameMapped ==>
        && anchor.Anchor? && anchor.viewable && anchor.position.Some?
        && (forall px, py :: Contains(server.frame, px, py) <==>
              Contains(RequestedRect(anchor, options), px, py) && Contains(AnchorRect(anchor), px, py))
        && server.frame.x + server.child.x == anchor.position.value.0 as int + options.x as int
        && server.frame.y + server.child.y == anchor.position.value.1 as int + options.y as int
        && server.child.width == options.width as int && server.child.height == options.height as int
        && (server.shield.Some? ==> server.shield.value == Rect(0, 0, server.frame.width, server.frame.height))
        && anchor.rootChild.Some? && server.above == anchor.rootChild
      ensures !server.frameMapped ==>
        && anchor.Anchor?
        && (anchor.viewable ==>
              && anchor.position.Some?
              && forall px, py ::
                   !(Contains(RequestedRect(anchor, options), px, py) && Contains(AnchorRect(anchor), px, py)))
    {
      ClippedCases(anchor, options);
      if server.frameMapped {
        hide ClippedGeometry;
        FrameIsIntersection(anchor, options);
      } else if anchor.Anchor? && anchor.viewable {
        hide ClippedGeometry;
        HiddenExactlyWhenDisjoint(anchor, options);
      }
    }

    /** Attached: the child lives in an unmapped frame at the origin. */
    constructor (options: Options)
      requires ValidOptions(options)
      ensures Valid() && this.options == options && !haveGeometry && !frameMapped && moves == 0
      ensures server.shield.Some? <==> options.task
    {
      this.options := options;
      var whole := Rect(0, 0, options.width as int, options.height as int);
      server := Server(whole, false, true, None, whole, InFrame, true, if options.task then Some(whole) else None);
      moves := 0;
      frameMapped := false;
      lastGeometry := Geometry(0, 0, 0, 0, 0, 0);
      haveGeometry := false;
    }

    method SyncFrame(anchor: Anchor) returns (ok: bool)
      requires Valid()
      modifies this
      ensures Valid()
      ensures ok ==> InStep(anchor)
      ensures ok <==> CanSync(options, anchor)
      ensures server.frameMapped == MappedBySync(options, old(server.frameMapped), anchor)
      ensures !ok ==> server.frameMapped == old(server.frameMapped)
      ensures ClippedGeometry(anchor, options).Hidden? ==> ok
      ensures ClippedGeometry(anchor, options).Visible? && anchor.rootChild.Some? ==> ok
      ensures !ok || ClippedGeometry(anchor, options).Hidden? ==> server.above == old(server.above)
      ensures anchor.Anchor? && !anchor.viewable ==> ok && !server.frameMapped
      ensures server.shield.Some? == old(server.shield.Some?) && server.childMapped == old(server.childMapped)
      ensures moves == old(moves) ==> server == old(server).(frameMapped := server.frameMapped, above := server.above)
      ensures moves <= old(moves) + 1
      ensures moves == old(moves) + 1 <==>
                ClippedGeometry(anchor, options).Visible?
                && (!old(haveGeometry) || old(lastGeometry) != ClippedGeometry(anchor, options).geometry)
    {
      var clipped := ClippedGeometry(anchor, options);
      if clipped.Unavailable? {
        return false;
      }
      if clipped.Hidden? {
        if frameMapped {
          server := server.(frameMapped := false);
          frameMapped := false;
        }
        return true;
      }
      var geometry := clipped.geometry;
      if !haveGeometry || geometry != lastGeometry {
        server := server.(frame := FrameRect(geometry), child := ChildRect(geometry, options));
        if server.shield.Some? {
          server := server.(shield := Some(Rect(0, 0, geometry.width as int, geometry.height as int)));
        }
        moves := moves + 1;
        lastGeometry := geometry;
        haveGeometry := true;
      }
      if anchor.rootChild.None? {
        return false;
      }
      server := server.(above := anchor.rootChild);
      if !frameMapped {
        server := server.(frameMapped := true);
        frameMapped := true;
      }
      return true;
    }

    method UnmapFrame()
      requires Valid()
      modifies this
      ensures Valid() && !frameMapped
      ensures server == old(server).(frameMapped := false)
    {
      server := server.(frameMapped := false);
      frameMapped := false;
    }

    /** The event queue of one turn. */
    method HandleEvents(events: seq<Event>) returns (anchorAlive: bool, childAlive: bool, stopping: bool)
      requires Valid()
      modifies this
      ensures Valid()
      ensures anchorAlive <==> AnchorDestroyed !in events
      ensures childAlive <==> ChildDestroyed !in events
      ensures stopping <==> options.task && ChildFocusIn(false) in events
      ensures server.frameMapped == MappedByEvents(options, old(server.frameMapped), events)
      ensures server.childMapped == old(server.childMapped)
    {
      hide MappedByEvent, MappedByEvents, Placed, ClippedGeometry;
      NoEvents(options, server.frameMapped);
      anchorAlive, childAlive, stopping := true, true, false;
      for i := 0 to |events|
        invariant Valid() && server.childMapped == old(server.childMapped)
        invariant anchorAlive <==> AnchorDestroyed !in events[..i]
        invariant childAlive <==> ChildDestroyed !in events[..i]
        invariant stopping <==> options.task && ChildFocusIn(false) in events[..i]
        invariant server.frameMapped == MappedByEvents(options, old(server.frameMapped), events[..i])
      {
        OneMoreEvent(options, old(server.frameMapped), events, i);
        match events[i] {
          case ChildDestroyed => childAlive := false;
          case AnchorDestroyed => anchorAlive := false;
          case _ =>
            var stuck := HandleEvent(events[i]);
            stopping := stopping || stuck;
        }
      }
      assert events[..|events|] == events;
    }

    /** The branches of the event loop that touch the frame. */
    method HandleEvent(event: Event) returns (stuck: bool)
      requires Valid()
      modifies this
      ensures Valid()
      ensures stuck <==> options.task && event == ChildFocusIn(false)
      ensures event.AnchorUnmapped? || stuck ==> server == old(server).(frameMapped := false)
      ensures (event.AnchorMapped? || event.AnchorConfigured?) && CanSync(options, event.anchor) ==>
        InStep(event.anchor)
      ensures !stuck && !event.AnchorUnmapped? && !event.AnchorMapped? && !event.AnchorConfigured? ==>
        server == old(server)
      ensures server.frameMapped == MappedByEvent(options, old(server.frameMapped), event)
      ensures server.childMapped == old(server.childMapped)
    {
      hide MappedBySync, InStep, ClippedGeometry;
      stuck := false;
      match event {
        case ChildFocusIn(movedAway) =>
          if options.task && !movedAway {
            UnmapFrame();
            stuck := true;
          }
        case AnchorUnmapped => UnmapFrame();
        case AnchorMapped(anchor) => var _ := SyncFrame(anchor);
        case AnchorConfigured(anchor) => var _ := SyncFrame(anchor);
        case _ =>
      }
    }

    /** One turn of the main loop. */
    method HandleTurn(turn: Turn) returns (anchorAlive: bool, childAlive: bool, stopping: bool)
      requires Valid()
      modifies this
      ensures Valid()
      ensures anchorAlive && childAlive ==> InStep(turn.anchor)
      ensures childAlive <==> ChildDestroyed !in turn.events
      ensures anchorAlive <==> AnchorKept(turn)
      ensures stopping <==> FocusStuck(options, turn)
      ensures server.frameMapped == MappedByTurn(options, old(server.frameMapped), turn)
      ensures anchorAlive && childAlive ==>
                (server.frameMapped <==> ClippedGeometry(turn.anchor, options).Visible?)
      ensures server.childMapped == old(server.childMapped)
    {
      hide ClippedGeometry, MappedByEvents, Placed;
      anchorAlive, childAlive, stopping := HandleEvents(turn.events);
      if anchorAlive && childAlive {
        anchorAlive := SyncFrame(turn.anchor);
      }
    }

    /** The main loop over the turns until something stops it. After every turn that does not
        lose a window, the server shows what the anchor now asks for: also after the turn in
        which the focus was stuck, whose last sync maps the unmapped frame again exactly when
        the surface is visible. */
    method EventLoop(turns: seq<Turn>) returns (done: nat, anchorAlive: bool, childAlive: bool, stopping: bool)
      requires Valid()
      modifies this
      ensures Valid() && done <= |turns|
      ensures anchorAlive && childAlive && done > 0 ==> InStep(turns[done - 1].anchor)
      ensures anchorAlive && childAlive && !stopping ==> done == |turns|
      ensures childAlive <==> forall k :: 0 <= k < done ==> ChildDestroyed !in turns[k].events
      ensures anchorAlive <==> forall k :: 0 <= k < done ==> AnchorKept(turns[k])
      ensures stopping <==> done > 0 && options.task && ChildFocusIn(false) in turns[done - 1].events
      ensures forall k :: 0 <= k < done - 1 ==>
                && !(options.task && ChildFocusIn(false) in turns[k].events)
                && AnchorKept(turns[k]) && ChildDestroyed !in turns[k].events
      ensures server.frameMapped == MappedByTurns(options, old(server.frameMapped), turns[..done])
      ensures stopping && anchorAlive && childAlive ==>
                (server.frameMapped <==> ClippedGeometry(turns[done - 1].anchor, options).Visible?)
      ensures server.childMapped == old(server.childMapped)
    {
      hide ClippedGeometry, MappedByTurn, InStep, AnchorKept;
      done, anchorAlive, childAlive, stopping := 0, true, true, false;
      while !stopping && anchorAlive && childAlive && done < |turns|
        invariant Valid() && done <= |turns| && server.childMapped == old(server.childMapped)
        invariant anchorAlive && childAlive && done > 0 ==> InStep(turns[done - 1].anchor)
        invariant anchorAlive && childAlive && done > 0 ==>
                    (server.frameMapped <==> ClippedGeometry(turns[done - 1].anchor, options).Visible?)
        invariant childAlive <==> forall k :: 0 <= k < done ==> ChildDestroyed !in turns[k].events
        invariant anchorAlive <==> forall k :: 0 <= k < done ==> AnchorKept(turns[k])
        invariant stopping <==> done > 0 && FocusStuck(options, turns[done - 1])
        invariant forall k :: 0 <= k < done - 1 ==>
                    !FocusStuck(options, turns[k]) && AnchorKept(turns[k]) && ChildDestroyed !in turns[k].events
        invariant server.frameMapped == MappedByTurns(options, old(server.frameMapped), turns[..done])
        decreases |turns| - done
      {
        assert turns[..done + 1][..done] == turns[..done];
        anchorAlive, childAlive, stopping := HandleTurn(turns[done]);
        done := done + 1;
      }
    }

    /** The anchor was not destroyed during a turn, and if a sync was due it found it. */
    predicate AnchorKept(turn: Turn)
      requires ValidOptions(options)
    {
      AnchorDestroyed !in turn.events && (ChildDestroyed in turn.events || CanSync(options, turn.anchor))
    }

    /** Gives the child back where it came from, or to the root if its parent is gone. */
    method RestoreChild(original: Original, parentAlive: bool)
      requires Valid()
      modifies this`server
      ensures var home := parentAlive && !original.parentIsRoot;
              && server.childParent == (if home then InOriginal else OnRoot)
              && server.child == Rect(if home then original.parentX else original.rootX,
                                      if home then original.parentY else original.rootY,
                                      original.width, original.height)
              && server.childMapped == original.mapped
      ensures server.frameMapped == old(server.frameMapped)
    {
      var toRoot := !parentAlive || original.parentIsRoot;
      var x := if toRoot then original.rootX else original.parentX;
      var y := if toRoot then original.rootY else original.parentY;
      server := server.(childMapped := false);
      server := server.(childParent := if toRoot then OnRoot else InOriginal, child := server.child.(x := x, y := y));
      server := server.(child := server.child.(width := original.width, height := original.height));
      if original.mapped {
        server := server.(childMapped := true);
      }
    }

    /** From the first sync to the end: attach, loop, restore. Whatever happened in between,
        a living child ends where it started and the frame is gone. `attachError` says that
        the server reported an error while attaching, or that the focus stayed in the task. */
    method Run(first: Anchor, attachError: bool, turns: seq<Turn>, original: Original, parentAlive: bool)
      returns (attached: bool)
      requires Valid() && !haveGeometry && !frameMapped
      modifies this
      ensures !server.frameAlive
      ensures attached <==> CanSync(options, first) && !attachError
      ensures !attached || (forall k :: 0 <= k < |turns| ==> ChildDestroyed !in turns[k].events) ==>
                var home := parentAlive && !original.parentIsRoot;
                && server.childParent == (if home then InOriginal else OnRoot)
                && server.child.width == original.width && server.child.height == original.height
                && (server.child.x, server.child.y)
                   == (if home then (original.parentX, original.parentY) else (original.rootX, original.rootY))
                && server.childMapped == original.mapped
    {
      attached := SyncFrame(first);
      attached := attached && !attachError;
      var childAlive := true;
      if attached {
        var done, anchorAlive, stopping;
        done, anchorAlive, childAlive, stopping := EventLoop(turns);
      }
      if childAlive {
        RestoreChild(original, parentAlive);
      }
      server := server.(frameAlive := false, frameMapped := false);
    }
  }
  /** The focus enters a task window over a visible surface and stays there: the code unmaps
      the frame and stops, yet the frame is mapped when the loop is over. */
  method StuckButMapped() returns (host: SurfaceHost, stopping: bool)
    ensures fresh(host) && host.Valid() && stopping && host.server.frameMapped
  {
    var anchor := Anchor(true, 100, 100, Some((0, 0)), Some(1));
    host := new SurfaceHost(Options(0, 0, 10, 10, true));
    var turn := Turn([ChildFocusIn(false)], anchor);
    var done, anchorAlive, childAlive;
    done, anchorAlive, childAlive, stopping := host.EventLoop([turn]);
    assert ChildFocusIn(false) in turn.events;
    assert FocusStuck(host.options, turn) && CanSync(host.options, anchor);
    assert done == 1 && stopping && anchorAlive && childAlive;
  }
}
