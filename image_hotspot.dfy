/**
 * The image hotspot component: which hotspot's tooltip is open, opening
 * and closing by click, legend and "toggle all", the rotation that steps
 * through the hotspots, and the clamping of hotspot positions.
 */
module ImageHotspots {
  import opened Optional
  import Arithmetic

  /** `Math.max(0, Math.min(100, v))` on a position in percent (`NaN` is not
      modelled). */
  function Clamp(v: real): (r: real)
    ensures 0.0 <= r <= 100.0
    ensures 0.0 <= v <= 100.0 ==> r == v
    ensures v < 0.0 ==> r == 0.0
    ensures v > 100.0 ==> r == 100.0
  {
    if v > 100.0 then 100.0 else if v < 0.0 then 0.0 else v
  }

  /** The events the component dispatches. */
  datatype HotspotEvent = Opened(id: string) | Closed(id: string) | RotationStarted | RotationStopped

  /** The part of the component that opening and closing change: the
      active hotspot, the shown tooltips and the dispatched events. */
  datatype TooltipState = TooltipState(active: Option<string>, shown: set<string>, events: seq<HotspotEvent>)

  /** JavaScript truthiness of `activeHotspot`: `null` and the empty id are
      falsy. */
  predicate Truthy(active: Option<string>) {
    active.Some? && active.value != ""
  }

  class ImageHotspot {
    /** The `data-hotspot-id` of every hotspot, in page order. */
    const hotspotIds: seq<string>
    /** The hotspots that hold a tooltip. */
    const withTooltip: set<string>
    const showTooltips: bool
    const autoRotate: bool
    const rotationSpeed: int

    var activeHotspot: Option<string>
    /** The hotspots whose tooltip is visible. */
    var shown: set<string>
    var isRotating: bool
    var currentRotationIndex: int
    /** Each hotspot's `(left, top)` position in percent. */
    var positions: seq<(real, real)>
    var events: seq<HotspotEvent>

    /** A hotspot that can show: it is on the page and holds a tooltip. */
    predicate CanShow(id: string) {
      id in hotspotIds && id in withTooltip
    }

    /** The tooltip state of the component. */
    ghost function State(): TooltipState
      reads this`activeHotspot, this`shown, this`events
    {
      TooltipState(activeHotspot, shown, events)
    }

    /** `closeHotspot` on a state: a showable hotspot is hidden, it stops
        being the active one, and the closed event is dispatched; any other
        id leaves the state as it is. */
    function AfterClose(id: string, st: TooltipState): TooltipState {
      if CanShow(id) then
        TooltipState(if st.active == Some(id) then None else st.active, st.shown - {id}, st.events + [Closed(id)])
      else st
    }

    /** The opening half of `openHotspot` on a state: with tooltips enabled
        a showable hotspot is shown, becomes the active one and the opened
        event is dispatched; otherwise the state is as it is. */
    function AfterOpen(id: string, st: TooltipState): TooltipState {
      if showTooltips && CanShow(id) then TooltipState(Some(id), st.shown + {id}, st.events + [Opened(id)])
      else st
    }

    /** The closing half of `openHotspot`: a truthy active hotspot other
        than `id` is closed first. */
    function CloseOther(id: string, st: TooltipState): TooltipState {
      if Truthy(st.active) && st.active.value != id then AfterClose(st.active.value, st) else st
    }

    /** `openHotspot` on a state: the other active hotspot closed, then
        this one opened. */
    function OpenStep(id: string, st: TooltipState): TooltipState {
      AfterOpen(id, CloseOther(id, st))
    }

    /** The state after closing the hotspots `ids` in turn, as the
        `forEach` of `closeAllHotspots` does. */
    function ClosedInTurn(ids: seq<string>, st: TooltipState): TooltipState {
      if ids == [] then st else AfterClose(ids[|ids| - 1], ClosedInTurn(ids[..|ids| - 1], st))
    }

    /** The state after opening the hotspots `ids` in turn, as the
        `forEach` of `openAllHotspots` does. */
    function OpenedInTurn(ids: seq<string>, st: TooltipState): TooltipState {
      if ids == [] then st else OpenStep(ids[|ids| - 1], OpenedInTurn(ids[..|ids| - 1], st))
    }

    /** Only showable hotspots are shown, the active one among them, and
        apart from it only a hotspot with the empty id (which the falsy
        check never closes) can be. */
    ghost predicate Valid()
      reads this
    {
      (activeHotspot.Some? ==> activeHotspot.value in shown) &&
      (forall x :: x in shown ==> CanShow(x) && (x == "" || activeHotspot == Some(x))) &&
      0 <= currentRotationIndex
    }

    /** The element's constructor and `init`: settings with their defaults,
        no hotspot active, the positions clamped, and rotation started when
        auto-rotate is on. */
    constructor (hotspotIds: seq<string>, withTooltip: set<string>, showTooltips: string, autoRotate: string,
                 rotationSpeed: Option<int>, positions: seq<(real, real)>)
      ensures Valid()
      ensures this.hotspotIds == hotspotIds && this.withTooltip == withTooltip
      ensures this.showTooltips == (showTooltips == "true") && this.autoRotate == (autoRotate == "true")
      ensures this.rotationSpeed == IntOr(rotationSpeed, 5)
      ensures activeHotspot == None && shown == {}
      ensures |this.positions| == |positions|
      ensures forall i :: 0 <= i < |positions| ==> this.positions[i] == (Clamp(positions[i].0), Clamp(positions[i].1))
      ensures isRotating == this.autoRotate && currentRotationIndex == 0
      ensures events == if this.autoRotate then [RotationStarted] else []
    {
      this.hotspotIds := hotspotIds;
      this.withTooltip := withTooltip;
      this.showTooltips := showTooltips == "true";
      this.autoRotate := autoRotate == "true";
      this.rotationSpeed := IntOr(rotationSpeed, 5);
      activeHotspot := None;
      shown := {};
      isRotating := false;
      currentRotationIndex := 0;
      this.positions := positions;
      events := [];
      new;
      SetupHotspots();
      if this.autoRotate {
        StartRotation();
      }
    }

    /** `setupHotspots`: every position is clamped into `[0, 100]`. */
    method SetupHotspots()
      modifies this`positions
      ensures |positions| == |old(positions)|
      ensures forall i :: 0 <= i < |positions| ==> positions[i] == (Clamp(old(positions)[i].0), Clamp(old(positions)[i].1))
    {
      var i := 0;
      while i < |positions|
        invariant 0 <= i <= |positions| == |old(positions)|
        invariant forall k :: 0 <= k < i ==> positions[k] == (Clamp(old(positions)[k].0), Clamp(old(positions)[k].1))
        invariant forall k :: i <= k < |positions| ==> positions[k] == old(positions)[k]
      {
        positions := positions[i := (Clamp(positions[i].0), Clamp(positions[i].1))];
        i := i + 1;
      }
    }

    /** `closeHotspot`: a showable hotspot's tooltip is hidden, the active
        hotspot is cleared only when it is this one, and the closed event
        dispatched; any other id changes nothing. */
    method CloseHotspot(id: string)
      requires Valid()
      modifies this`shown, this`activeHotspot, this`events
      ensures Valid()
      ensures CanShow(id) ==> shown == old(shown) - {id} && events == old(events) + [Closed(id)]
      ensures CanShow(id) ==> activeHotspot == if old(activeHotspot) == Some(id) then None else old(activeHotspot)
      ensures !CanShow(id) ==> (shown == old(shown) && activeHotspot == old(activeHotspot) && events == old(events))
      ensures State() == AfterClose(id, old(State()))
    {
      if !CanShow(id) {
        return;
      }
      shown := shown - {id};
      if activeHotspot == Some(id) {
        activeHotspot := None;
      }
      events := events + [Closed(id)];
    }

    /** `openHotspot`: a different (truthy) active hotspot is closed first;
        an id that is not on the page makes the lookup throw; a showable
        hotspot with tooltips enabled becomes the active one and the only
        one shown besides an empty id. */
    method OpenHotspot(id: string) returns (threw: bool)
      requires Valid()
      modifies this`shown, this`activeHotspot, this`events
      ensures Valid()
      ensures threw <==> id !in hotspotIds
      ensures showTooltips && CanShow(id) ==> (activeHotspot == Some(id) && id in shown &&
        (forall x :: x in shown ==> x == id || x == ""))
      ensures !(showTooltips && CanShow(id)) && Truthy(old(activeHotspot)) && old(activeHotspot) != Some(id) ==>
        activeHotspot == None
      ensures !(showTooltips && CanShow(id)) && !(Truthy(old(activeHotspot)) && old(activeHotspot) != Some(id)) ==>
        (activeHotspot == old(activeHotspot) && shown == old(shown))
      ensures State() == OpenStep(id, old(State()))
    {
      if Truthy(activeHotspot) && activeHotspot.value != id {
        CloseHotspot(activeHotspot.value);
      }
      if id !in hotspotIds {
        return true;
      }
      if id in withTooltip && showTooltips {
        shown := shown + {id};
        activeHotspot := Some(id);
        events := events + [Opened(id)];
      }
      return false;
    }

    /** A click on a hotspot, or on its legend entry: the active hotspot
        closes, any other opens. */
    method HotspotClick(id: string) returns (threw: bool)
      requires Valid()
      modifies this`shown, this`activeHotspot, this`events
      ensures Valid()
      ensures old(activeHotspot) == Some(id) ==> !threw && activeHotspot == None && id !in shown
      ensures old(activeHotspot) != Some(id) && showTooltips && CanShow(id) ==> activeHotspot == Some(id)
      ensures old(activeHotspot) != Some(id) ==> (threw <==> id !in hotspotIds)
      ensures old(activeHotspot) == Some(id) ==> State() == AfterClose(id, old(State()))
      ensures old(activeHotspot) != Some(id) ==> State() == OpenStep(id, old(State()))
    {
      if activeHotspot == Some(id) {
        CloseHotspot(id);
        return false;
      }
      threw := OpenHotspot(id);
    }

    /** `closeAllHotspots`: closes every hotspot in turn, so none is active
        or shown afterwards. */
    method CloseAllHotspots()
      requires Valid()
      modifies this`shown, this`activeHotspot, this`events
      ensures Valid()
      ensures activeHotspot == None && shown == {}
      ensures State() == ClosedInTurn(hotspotIds, old(State()))
    {
      for i := 0 to |hotspotIds|
        invariant Valid()
        invariant forall k :: 0 <= k < i ==> hotspotIds[k] !in shown
        invariant State() == ClosedInTurn(hotspotIds[..i], old(State()))
      {
        assert hotspotIds[..i + 1][..i] == hotspotIds[..i];
        CloseHotspot(hotspotIds[i]);
      }
      assert hotspotIds[..|hotspotIds|] == hotspotIds;
      assert forall x :: x in shown ==> x in hotspotIds;
    }

    /** `openAllHotspots`: opens every hotspot in turn; each opening closes
        the one before, so at most one hotspot (besides an empty id) stays
        shown: the last one, when it can show and tooltips are enabled. */
    method OpenAllHotspots()
      requires Valid()
      modifies this`shown, this`activeHotspot, this`events
      ensures Valid()
      ensures |hotspotIds| > 0 && showTooltips && CanShow(hotspotIds[|hotspotIds| - 1]) ==>
        activeHotspot == Some(hotspotIds[|hotspotIds| - 1])
      ensures forall x :: x in shown ==> x == "" || activeHotspot == Some(x)
      ensures State() == OpenedInTurn(hotspotIds, old(State()))
    {
      for i := 0 to |hotspotIds|
        invariant Valid()
        invariant i > 0 && showTooltips && CanShow(hotspotIds[i - 1]) ==> activeHotspot == Some(hotspotIds[i - 1])
        invariant State() == OpenedInTurn(hotspotIds[..i], old(State()))
      {
        assert hotspotIds[..i + 1][..i] == hotspotIds[..i];
        var _ := OpenHotspot(hotspotIds[i]);
      }
      assert hotspotIds[..|hotspotIds|] == hotspotIds;
    }

    /** The "toggle all" control: closes all when a hotspot is active,
        opens all otherwise. */
    method ToggleAll()
      requires Valid()
      modifies this`shown, this`activeHotspot, this`events
      ensures Valid()
      ensures Truthy(old(activeHotspot)) ==> activeHotspot == None && shown == {}
      ensures Truthy(old(activeHotspot)) ==> State() == ClosedInTurn(hotspotIds, old(State()))
      ensures !Truthy(old(activeHotspot)) ==> State() == OpenedInTurn(hotspotIds, old(State()))
    {
      if Truthy(activeHotspot) {
        CloseAllHotspots();
      } else {
        OpenAllHotspots();
      }
    }

    /** `startRotation`: a no-op while rotating; otherwise rotation starts
        from index 0. */
    method StartRotation()
      requires 0 <= currentRotationIndex
      modifies this`isRotating, this`currentRotationIndex, this`events
      ensures isRotating && 0 <= currentRotationIndex
      ensures old(isRotating) ==> currentRotationIndex == old(currentRotationIndex) && events == old(events)
      ensures !old(isRotating) ==> currentRotationIndex == 0 && events == old(events) + [RotationStarted]
    {
      if isRotating {
        return;
      }
      isRotating := true;
      currentRotationIndex := 0;
      events := events + [RotationStarted];
    }

    /** `stopRotation`: a no-op unless rotating. */
    method StopRotation()
      modifies this`isRotating, this`events
      ensures !isRotating
      ensures !old(isRotating) ==> events == old(events)
      ensures old(isRotating) ==> events == old(events) + [RotationStopped]
    {
      if !isRotating {
        return;
      }
      isRotating := false;
      events := events + [RotationStopped];
    }

    /** `handleToggleRotation`, the toggle button's click handler: rotation
        flips between running and stopped, and the matching event is
        recorded; a restarted rotation begins at index 0. */
    method HandleToggleRotation()
      requires 0 <= currentRotationIndex
      modifies this`isRotating, this`currentRotationIndex, this`events
      ensures isRotating == !old(isRotating) && 0 <= currentRotationIndex
      ensures old(isRotating) ==>
        events == old(events) + [RotationStopped] && currentRotationIndex == old(currentRotationIndex)
      ensures !old(isRotating) ==>
        events == old(events) + [RotationStarted] && currentRotationIndex == 0
    {
      if isRotating {
        StopRotation();
      } else {
        StartRotation();
      }
    }

    /** `rotateToNextHotspot`, fired by the rotation interval: nothing
        without hotspots; otherwise the index moves on cyclically and that
        hotspot opens. */
    method RotateToNextHotspot()
      requires Valid()
      modifies this`shown, this`activeHotspot, this`events, this`currentRotationIndex
      ensures Valid()
      ensures |hotspotIds| == 0 ==> currentRotationIndex == old(currentRotationIndex) && State() == old(State())
      ensures |hotspotIds| > 0 ==> currentRotationIndex == (old(currentRotationIndex) + 1) % |hotspotIds|
      ensures |hotspotIds| > 0 ==>
        var closed := if Truthy(old(activeHotspot)) then AfterClose(old(activeHotspot).value, old(State())) else old(State());
        State() == AfterOpen(hotspotIds[currentRotationIndex], closed)
      ensures |hotspotIds| > 0 && showTooltips && CanShow(hotspotIds[currentRotationIndex]) ==>
        activeHotspot == Some(hotspotIds[currentRotationIndex])
    {
      if |hotspotIds| == 0 {
        return;
      }
      if Truthy(activeHotspot) {
        CloseHotspot(activeHotspot.value);
      }
      currentRotationIndex := (currentRotationIndex + 1) % |hotspotIds|;
      var _ := OpenHotspot(hotspotIds[currentRotationIndex]);
    }
  }

  /** The index after `n` rotations. */
  function Rotations(start: nat, count: nat, n: nat): nat
    requires count > 0
  {
    if n == 0 then start else (Rotations(start, count, n - 1) + 1) % count
  }

  /** Rotation from the start index visits the hotspots in page order and
      comes back to the start after one round. */
  lemma {:induction false} RotationsVisitInOrder(count: nat, n: nat)
    requires count > 0 && n < count
    ensures Rotations(0, count, n) == n
  {
    if n > 0 {
      RotationsVisitInOrder(count, n - 1);
      Arithmetic.SuccessorMod(Rotations(0, count, n - 1), count);
    }
  }

  lemma RotationRound(count: nat)
    requires count > 0
    ensures Rotations(0, count, count) == 0
  {
    RotationsVisitInOrder(count, count - 1);
    Arithmetic.SuccessorMod(Rotations(0, count, count - 1), count);
  }
}
