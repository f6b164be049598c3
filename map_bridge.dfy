/**
 * `handleMessage` of the OpenStreetMap component: the host side of the channel on
 * which the page posts `mapReady`, `mapClick`, `markerDrag` and `markerClick`.
 *
 * The component's own state is `isLoading`; `markerCoords` belongs to the parent
 * and is reached through the `setMarkerCoords` setter, so it is kept here as a
 * field that the handler assigns. The optional callbacks `onPress` and
 * `onMarkerPress` are recorded, in call order, in a log.
 */
module MapBridge {
  import opened Wrappers
  import opened MapPage

  /**
   * A message from the page after `JSON.parse`. `Malformed` is a payload that does
   * not parse, or parses to `null` (reading `.type` of it throws); both end in the
   * `catch`, which only logs. `kind` is the payload's `type`; a missing or
   * non-string `type` is any string other than the four the handler knows.
   */
  datatype Payload =
    | Malformed
    | Parsed(kind: string, latitude: real, longitude: real, markerId: string)

  /** A call of one of the optional callback props. */
  datatype Call = OnPress | OnMarkerPress(markerId: string)

  /** Which of the optional callback props are provided. */
  datatype Handlers = Handlers(onPress: bool, onMarkerPress: bool)

  datatype BridgeState = BridgeState(isLoading: bool, markerCoords: Option<LatLng>, calls: seq<Call>)

  predicate IsKind(p: Payload, kind: string) {
    p.Parsed? && p.kind == kind
  }

  /** A payload the handler ignores: it does not parse, or its `type` is none of the four. */
  predicate Ignored(p: Payload) {
    !IsKind(p, "mapReady") && !IsKind(p, "mapClick") && !IsKind(p, "markerDrag") && !IsKind(p, "markerClick")
  }

  /** The effect of one message: what `handleMessage` does to the state. */
  function Step(h: Handlers, s: BridgeState, p: Payload): BridgeState {
    match p
    case Malformed => s
    case Parsed(kind, lat, lng, id) =>
      if kind == "mapReady" then s.(isLoading := false)
      else if kind == "mapClick" then
        s.(markerCoords := Some(LatLng(lat, lng)), calls := s.calls + (if h.onPress then [OnPress] else []))
      else if kind == "markerDrag" then s.(markerCoords := Some(LatLng(lat, lng)))
      else if kind == "markerClick" then
        s.(calls := s.calls + (if h.onMarkerPress then [OnMarkerPress(id)] else []))
      else s
  }

  /** The state after handling the messages `ps` in order. */
  function Run(h: Handlers, s: BridgeState, ps: seq<Payload>): BridgeState
    decreases |ps|
  {
    if ps == [] then s else Run(h, Step(h, s, ps[0]), ps[1..])
  }

  lemma {:induction false} RunAppend(h: Handlers, s: BridgeState, ps: seq<Payload>, p: Payload)
    ensures Run(h, s, ps + [p]) == Step(h, Run(h, s, ps), p)
    decreases |ps|
  {
    if ps == [] {
      assert ps + [p] == [p];
    } else {
      assert (ps + [p])[0] == ps[0] && (ps + [p])[1..] == ps[1..] + [p];
      RunAppend(h, Step(h, s, ps[0]), ps[1..], p);
    }
  }

  /**
   * One message: `mapClick` and `markerDrag` both place the selected coordinate at
   * the payload's position, but only `mapClick` calls `onPress`, and only when it is
   * provided; `markerClick` calls `onMarkerPress` with the payload's id when it is
   * provided and touches neither coordinate nor loading flag; `mapReady` clears
   * the loading flag; an ignored payload changes nothing.
   */
  lemma StepEffects(h: Handlers, s: BridgeState, p: Payload)
    ensures var r := Step(h, s, p);
      && (IsKind(p, "mapClick") ==>
            r == s.(markerCoords := Some(LatLng(p.latitude, p.longitude)),
                    calls := s.calls + (if h.onPress then [OnPress] else [])))
      && (IsKind(p, "markerDrag") ==> r == s.(markerCoords := Some(LatLng(p.latitude, p.longitude))))
      && (IsKind(p, "markerClick") ==>
            r == s.(calls := s.calls + (if h.onMarkerPress then [OnMarkerPress(p.markerId)] else [])))
      && (IsKind(p, "mapReady") ==> r == s.(isLoading := false))
      && (Ignored(p) ==> r == s)
  {
  }

  // ---------------------------------------------------------------------------
  // Reference definitions over a sequence of messages
  // ---------------------------------------------------------------------------

  /** The position of the last `mapClick` or `markerDrag` in `ps`, or `initial` if there is none. */
  function LastPlaced(ps: seq<Payload>, initial: Option<LatLng>): Option<LatLng> {
    if ps == [] then initial
    else
      var p := ps[|ps| - 1];
      if IsKind(p, "mapClick") || IsKind(p, "markerDrag") then Some(LatLng(p.latitude, p.longitude))
      else LastPlaced(ps[..|ps| - 1], initial)
  }

  /** Number of `mapClick` messages in `ps`. */
  function MapClicks(ps: seq<Payload>): nat {
    if ps == [] then 0 else (if IsKind(ps[0], "mapClick") then 1 else 0) + MapClicks(ps[1..])
  }

  /** The `markerId`s of the `markerClick` messages in `ps`, in order. */
  function ClickedIds(ps: seq<Payload>): seq<string> {
    if ps == [] then [] else (if IsKind(ps[0], "markerClick") then [ps[0].markerId] else []) + ClickedIds(ps[1..])
  }

  /** Number of `onPress` calls in a log. */
  function Presses(calls: seq<Call>): nat {
    if calls == [] then 0 else (if calls[0].OnPress? then 1 else 0) + Presses(calls[1..])
  }

  /** The ids passed to `onMarkerPress` in a log, in order. */
  function PressedIds(calls: seq<Call>): seq<string> {
    if calls == [] then [] else (if calls[0].OnMarkerPress? then [calls[0].markerId] else []) + PressedIds(calls[1..])
  }

  lemma {:induction false} PressesAppend(a: seq<Call>, b: seq<Call>)
    ensures Presses(a + b) == Presses(a) + Presses(b)
    ensures PressedIds(a + b) == PressedIds(a) + PressedIds(b)
  {
    if a == [] {
      assert a + b == b;
    } else {
      assert (a + b)[0] == a[0] && (a + b)[1..] == a[1..] + b;
      PressesAppend(a[1..], b);
    }
  }

  // ---------------------------------------------------------------------------
  // Properties of a run of messages
  // ---------------------------------------------------------------------------

  /**
   * The loading indicator is off after a run exactly when it was off before or a
   * `mapReady` arrived; in particular nothing turns it back on.
   */
  lemma {:induction false} LoadingOnlyClears(h: Handlers, s: BridgeState, ps: seq<Payload>)
    ensures Run(h, s, ps).isLoading <==> s.isLoading && forall i :: 0 <= i < |ps| ==> !IsKind(ps[i], "mapReady")
    decreases |ps|
  {
    if ps != [] {
      LoadingOnlyClears(h, Step(h, s, ps[0]), ps[1..]);
      assert forall i :: 1 <= i < |ps| ==> ps[i] == ps[1..][i - 1];
    }
  }

  /** The selected coordinate after a run is the position of the last click or drag, if any. */
  lemma {:induction false} SelectedIsLastPlaced(h: Handlers, s: BridgeState, ps: seq<Payload>)
    ensures Run(h, s, ps).markerCoords == LastPlaced(ps, s.markerCoords)
    decreases |ps|
  {
    if ps != [] {
      var init := ps[..|ps| - 1];
      assert ps == init + [ps[|ps| - 1]];
      RunAppend(h, s, init, ps[|ps| - 1]);
      SelectedIsLastPlaced(h, s, init);
    }
  }

  /** The callbacks one message makes. */
  function CallsOf(h: Handlers, p: Payload): seq<Call> {
    if IsKind(p, "mapClick") && h.onPress then [OnPress]
    else if IsKind(p, "markerClick") && h.onMarkerPress then [OnMarkerPress(p.markerId)]
    else []
  }

  /** The callbacks a run of messages makes, in order. */
  function CallsOfRun(h: Handlers, ps: seq<Payload>): seq<Call> {
    if ps == [] then [] else CallsOf(h, ps[0]) + CallsOfRun(h, ps[1..])
  }

  lemma {:induction false} RunCallsAppended(h: Handlers, s: BridgeState, ps: seq<Payload>)
    ensures Run(h, s, ps).calls == s.calls + CallsOfRun(h, ps)
    decreases |ps|
  {
    if ps != [] {
      var s' := Step(h, s, ps[0]);
      assert s'.calls == s.calls + CallsOf(h, ps[0]);
      RunCallsAppended(h, s', ps[1..]);
    }
  }

  lemma {:induction false} CallsOfRunCounts(h: Handlers, ps: seq<Payload>)
    ensures Presses(CallsOfRun(h, ps)) == (if h.onPress then MapClicks(ps) else 0)
    ensures PressedIds(CallsOfRun(h, ps)) == (if h.onMarkerPress then ClickedIds(ps) else [])
    decreases |ps|
  {
    if ps != [] {
      PressesAppend(CallsOf(h, ps[0]), CallsOfRun(h, ps[1..]));
      CallsOfRunCounts(h, ps[1..]);
    }
  }

  /**
   * Callbacks after a run: the earlier log is kept as a prefix, `onPress` was called
   * once per `mapClick` (never when not provided), and `onMarkerPress` received the
   * ids of the `markerClick` messages in order (nothing when not provided).
   */
  lemma CallbacksOfRun(h: Handlers, s: BridgeState, ps: seq<Payload>)
    ensures var r := Run(h, s, ps);
      && |s.calls| <= |r.calls| && r.calls[..|s.calls|] == s.calls
      && Presses(r.calls) == Presses(s.calls) + (if h.onPress then MapClicks(ps) else 0)
      && PressedIds(r.calls) == PressedIds(s.calls) + (if h.onMarkerPress then ClickedIds(ps) else [])
  {
    RunCallsAppended(h, s, ps);
    PressesAppend(s.calls, CallsOfRun(h, ps));
    CallsOfRunCounts(h, ps);
  }

  /** Messages that do not parse or have an unknown `type` leave the state as it was. */
  lemma {:induction false} IgnoredRunIsNoOp(h: Handlers, s: BridgeState, ps: seq<Payload>)
    requires forall i :: 0 <= i < |ps| ==> Ignored(ps[i])
    ensures Run(h, s, ps) == s
    decreases |ps|
  {
    if ps != [] {
      assert Step(h, s, ps[0]) == s;
      IgnoredRunIsNoOp(h, s, ps[1..]);
    }
  }

  // ---------------------------------------------------------------------------
  // The component
  // ---------------------------------------------------------------------------

  class OpenStreetMap {
    var isLoading: bool
    var markerCoords: Option<LatLng>
    var calls: seq<Call>
    const handlers: Handlers

    function State(): BridgeState
      reads this
    {
      BridgeState(isLoading, markerCoords, calls)
    }

    /** Mounting: `isLoading` starts true; `markerCoords` is the parent's current value. */
    constructor (markerCoords: Option<LatLng>, handlers: Handlers)
      ensures State() == BridgeState(true, markerCoords, [])
      ensures this.handlers == handlers
    {
      this.isLoading := true;
      this.markerCoords := markerCoords;
      this.calls := [];
      this.handlers := handlers;
    }

    method HandleMessage(p: Payload)
      modifies this
      ensures State() == Step(handlers, old(State()), p)
    {
      match p {
        case Malformed =>
          // the parse error is logged and otherwise ignored
        case Parsed(kind, lat, lng, id) =>
          if kind == "mapReady" {
            isLoading := false;
          } else if kind == "mapClick" {
            markerCoords := Some(LatLng(lat, lng));
            if handlers.onPress {
              calls := calls + [OnPress];
            }
          } else if kind == "markerDrag" {
            markerCoords := Some(LatLng(lat, lng));
          } else if kind == "markerClick" {
            if handlers.onMarkerPress {
              calls := calls + [OnMarkerPress(id)];
            }
          }
      }
    }
  }
}
